/**
 Rigid placements: the frames accepted as rigid, and the change to and from their local
 coordinates.
 */
module Placements {
  import opened Vectors
  import opened Wrappers

  const RIGID_TOLERANCE: real := 0.000000001

  function Distance(a: real, b: real): real {
    if a < b then b - a else a - b
  }

  predicate IsUnit(axis: Vec) {
    Distance(Dot(axis, axis), 1.0) <= RIGID_TOLERANCE
  }

  /** The axes are orthonormal and right-handed up to the tolerance. */
  predicate IsTrustworthy(placement: Frame) {
    && IsUnit(placement.xAxis) && IsUnit(placement.yAxis) && IsUnit(placement.zAxis)
    && Distance(Dot(placement.xAxis, placement.yAxis), 0.0) <= RIGID_TOLERANCE
    && Distance(Dot(placement.xAxis, placement.zAxis), 0.0) <= RIGID_TOLERANCE
    && Distance(Dot(placement.yAxis, placement.zAxis), 0.0) <= RIGID_TOLERANCE
    && Dot(Cross(placement.xAxis, placement.yAxis), placement.zAxis) >= 1.0 - RIGID_TOLERANCE
  }

  /** An exact rigid motion. */
  ghost predicate IsRigid(placement: Frame) {
    && Orthonormal(placement.xAxis, placement.yAxis, placement.zAxis)
    && Det(placement.xAxis, placement.yAxis, placement.zAxis) == 1.0
  }

  function LocalVector(v: Vec, placement: Frame): Vec {
    Vec(Dot(v, placement.xAxis), Dot(v, placement.yAxis), Dot(v, placement.zAxis))
  }

  function LocalPoint(world: Vec, placement: Frame): Vec {
    LocalVector(Subtract(world, placement.origin), placement)
  }

  function WorldVector(local: Vec, placement: Frame): Vec {
    Combine(placement.xAxis, placement.yAxis, placement.zAxis, local)
  }

  function WorldPoint(local: Vec, placement: Frame): Vec {
    Add(placement.origin, WorldVector(local, placement))
  }

  // ----- Orthonormal axes span everything -----

  lemma CrossProduct(a: real, b: real, c: real, d: real, g: real, h: real)
    ensures (a * h - b * g) * (c * h - d * g) == a * c * (h * h) - a * d * (g * h) - b * c * (g * h) + b * d * (g * g)
  {
  }

  lemma DotProduct(a: real, b: real, c: real, d: real, e: real, f: real, g: real, h: real, i: real)
    ensures (a * g + b * h + c * i) * (d * g + e * h + f * i)
         == a * d * (g * g) + b * e * (h * h) + c * f * (i * i)
            + (a * e + b * d) * (g * h) + (a * f + c * d) * (g * i) + (b * f + c * e) * (h * i)
  {
  }

  lemma BinetReals(a: real, b: real, c: real, d: real, e: real, f: real, g: real, h: real, i: real)
    ensures Mul(b * i - c * h, e * i - f * h) + Mul(c * g - a * i, f * g - d * i) + Mul(a * h - b * g, d * h - e * g)
         == Mul(a * d + b * e + c * f, g * g + h * h + i * i) - Mul(a * g + b * h + c * i, d * g + e * h + f * i)
  {
    CrossProduct(b, c, e, f, h, i);
    CrossProduct(c, a, f, d, i, g);
    CrossProduct(a, b, d, e, g, h);
    DotProduct(a, b, c, d, e, f, g, h, i);
  }

  lemma Binet(v: Vec, x: Vec, p: Vec)
    ensures Dot(Cross(v, p), Cross(x, p)) == Dot(v, x) * Dot(p, p) - Dot(v, p) * Dot(x, p)
  {
    hide Dot, Cross;
    var m, n := Cross(v, p), Cross(x, p);
    BinetProducts(v, x, p);
    DotExpanded(m, n);
  }

  lemma BinetProducts(v: Vec, x: Vec, p: Vec)
    ensures var m, n := Cross(v, p), Cross(x, p);
      Mul(m.x, n.x) + Mul(m.y, n.y) + Mul(m.z, n.z) == Mul(Dot(v, x), Dot(p, p)) - Mul(Dot(v, p), Dot(x, p))
  {
    hide Mul, Dot, Cross;
    CrossParts(v, p);
    CrossParts(x, p);
    DotExpanded(v, x);
    DotExpanded(p, p);
    DotExpanded(v, p);
    DotExpanded(x, p);
    BinetReals(v.x, v.y, v.z, x.x, x.y, x.z, p.x, p.y, p.z);
  }

  /** Only the zero vector is orthogonal to three orthonormal axes. */
  lemma NothingIsOrthogonal(x: Vec, y: Vec, z: Vec, v: Vec)
    requires Orthonormal(x, y, z) && Dot(v, x) == 0.0 && Dot(v, y) == 0.0 && Dot(v, z) == 0.0
    ensures v == Vec(0.0, 0.0, 0.0)
  {
    hide Dot, Cross;
    var p := Cross(y, z);
    DoubleCrossVanishes(v, y, z);
    DoubleCrossVanishes(x, y, z);
    ZeroDot();
    Lagrange(y, z);
    UnitReals(Dot(y, y), Dot(z, z), Dot(y, z), Dot(p, p));
    Binet(v, x, p);
    OrthonormalVolume(x, y, z);
    VanishingProduct(Dot(v, x), Dot(p, p), Dot(v, p), Dot(x, p));
    Lagrange(v, p);
    VanishingSquare(Dot(v, v), Dot(p, p), Dot(v, p));
    DotExpanded(v, v);
    SquaresVanish(v.x, v.y, v.z);
  }

  lemma VanishingProduct(vx: real, pp: real, vp: real, xp: real)
    requires 0.0 == vx * pp - vp * xp && vx == 0.0 && xp * xp == 1.0
    ensures vp == 0.0
  {
    ProductVanishes(vp, xp);
  }

  lemma VanishingSquare(vv: real, pp: real, vp: real)
    requires 0.0 == vv * pp - vp * vp && pp == 1.0 && vp == 0.0
    ensures vv == 0.0
  {
  }

  lemma ProductVanishes(a: real, b: real)
    requires a * b == 0.0 && b * b == 1.0
    ensures a == 0.0
  {
  }

  lemma SquaresVanish(a: real, b: real, c: real)
    requires Mul(a, a) + Mul(b, b) + Mul(c, c) == 0.0
    ensures a == 0.0 && b == 0.0 && c == 0.0
  {
    SumVanishes(Mul(a, a), Mul(b, b), Mul(c, c));
    RootVanishes(a);
    RootVanishes(b);
    RootVanishes(c);
  }

  lemma SumVanishes(a: real, b: real, c: real)
    requires a >= 0.0 && b >= 0.0 && c >= 0.0 && a + b + c == 0.0
    ensures a == 0.0 && b == 0.0 && c == 0.0
  {
  }

  lemma RootVanishes(a: real)
    requires Mul(a, a) == 0.0
    ensures a == 0.0
  {
    hide Mul;
    SquareIsPositive(a);
  }

  lemma SquareIsPositive(a: real)
    ensures a != 0.0 ==> Mul(a, a) > 0.0
  {
    hide Mul;
    if a > 0.0 {
      ProductIsPositive(a, a);
    } else if a < 0.0 {
      ProductIsPositive(-a, -a);
      NegatedSquare(a);
    }
  }

  lemma ProductIsPositive(a: real, b: real)
    requires a > 0.0 && b > 0.0
    ensures Mul(a, b) > 0.0
  {
  }

  lemma NegatedSquare(a: real)
    ensures Mul(-a, -a) == Mul(a, a)
  {
  }

  lemma DotCombine(x: Vec, y: Vec, z: Vec, c: Vec, q: Vec)
    ensures Dot(Combine(x, y, z, c), q) == c.x * Dot(x, q) + c.y * Dot(y, q) + c.z * Dot(z, q)
  {
    var l := Combine(x, y, z, c);
    CombineReals(x.x, x.y, x.z, y.x, y.y, y.z, z.x, z.y, z.z, c.x, c.y, c.z, q.x, q.y, q.z, l.x, l.y, l.z);
  }

  lemma DotSubtract(a: Vec, b: Vec, q: Vec)
    ensures Dot(Subtract(a, b), q) == Dot(a, q) - Dot(b, q)
  {
  }

  lemma DotCommutes(a: Vec, b: Vec)
    ensures Dot(a, b) == Dot(b, a)
  {
  }

  /** A vector is rebuilt from its local coordinates. */
  lemma VectorReturns(v: Vec, placement: Frame)
    requires IsRigid(placement)
    ensures WorldVector(LocalVector(v, placement), placement) == v
  {
    hide Dot, Combine, Det;
    var x, y, z := placement.xAxis, placement.yAxis, placement.zAxis;
    var c := LocalVector(v, placement);
    var back := Combine(x, y, z, c);
    var rest := Subtract(v, back);
    DotCombine(x, y, z, c, x);
    DotCombine(x, y, z, c, y);
    DotCombine(x, y, z, c, z);
    DotCommutes(x, y);
    DotCommutes(x, z);
    DotCommutes(y, z);
    DotSubtract(v, back, x);
    DotSubtract(v, back, y);
    DotSubtract(v, back, z);
    NothingIsOrthogonal(x, y, z, rest);
  }

  lemma PointReturns(world: Vec, placement: Frame)
    requires IsRigid(placement)
    ensures WorldPoint(LocalPoint(world, placement), placement) == world
  {
    hide LocalVector, WorldVector;
    VectorReturns(Subtract(world, placement.origin), placement);
  }

  /** Local coordinates are what a point was placed from. */
  lemma LocalReturns(local: Vec, placement: Frame)
    requires IsRigid(placement)
    ensures LocalPoint(WorldPoint(local, placement), placement) == local
  {
    hide Dot, Combine, Det;
    var x, y, z := placement.xAxis, placement.yAxis, placement.zAxis;
    DotCombine(x, y, z, local, x);
    DotCombine(x, y, z, local, y);
    DotCombine(x, y, z, local, z);
    DotCommutes(x, y);
    DotCommutes(x, z);
    DotCommutes(y, z);
    assert Subtract(WorldPoint(local, placement), placement.origin) == WorldVector(local, placement);
  }

  // ----- Whole lists of points -----

  function LocalPoints(points: seq<Vec>, placement: Frame): (r: seq<Vec>)
    ensures |r| == |points|
  {
    seq(|points|, (i: nat) requires i < |points| => LocalPoint(points[i], placement))
  }

  function WorldPoints(points: seq<Vec>, placement: Frame): (r: seq<Vec>)
    ensures |r| == |points|
  {
    seq(|points|, (i: nat) requires i < |points| => WorldPoint(points[i], placement))
  }

  lemma PointsReturn(points: seq<Vec>, placement: Frame)
    requires IsRigid(placement)
    ensures WorldPoints(LocalPoints(points, placement), placement) == points
  {
    hide LocalPoint, WorldPoint, IsRigid;
    forall i | 0 <= i < |points| ensures WorldPoints(LocalPoints(points, placement), placement)[i] == points[i] {
      PointReturns(points[i], placement);
    }
  }

  method LocalizePoints(points: seq<Vec>, placement: Frame) returns (local: seq<Vec>)
    ensures local == LocalPoints(points, placement)
  {
    hide LocalPoint;
    local := points;
    for i := 0 to |points|
      invariant |local| == |points| && local[i..] == points[i..]
      invariant forall k :: 0 <= k < i ==> local[k] == LocalPoint(points[k], placement)
    {
      assert local[i] == points[i..][0];
      local := local[i := LocalPoint(local[i], placement)];
    }
  }

  datatype Projection = ModelSpace(positions: seq<Vec>) | LocalSpace(local: seq<Vec>, placement: Frame)

  /** Display coordinates: local to a trustworthy frame when asked for, else unchanged. */
  method Project(points: seq<Vec>, wantsLocal: bool, candidate: Option<Frame>) returns (projection: Projection)
    ensures projection.LocalSpace? <==> wantsLocal && candidate.Some? && IsTrustworthy(candidate.value)
    ensures projection.LocalSpace? ==> candidate == Some(projection.placement)
    ensures projection.LocalSpace? && IsRigid(projection.placement) ==>
              WorldPoints(projection.local, projection.placement) == points
    ensures projection.ModelSpace? ==> projection.positions == points
  {
    hide IsTrustworthy, LocalPoints, WorldPoints, IsRigid;
    if wantsLocal && candidate.Some? && IsTrustworthy(candidate.value) {
      var local := LocalizePoints(points, candidate.value);
      if IsRigid(candidate.value) { PointsReturn(points, candidate.value); }
      return LocalSpace(local, candidate.value);
    }
    return ModelSpace(points);
  }

  /** An exactly orthonormal frame is accepted just when it is right-handed. */
  lemma RigidIsTrustworthy(placement: Frame)
    requires Orthonormal(placement.xAxis, placement.yAxis, placement.zAxis)
    ensures IsTrustworthy(placement) <==> IsRigid(placement)
  {
    var x, y, z := placement.xAxis, placement.yAxis, placement.zAxis;
    OrthonormalVolume(x, y, z);
    DetIsCyclic(x, y, z);
    DetIsCyclic(y, z, x);
    DotCommutes(Cross(x, y), z);
    UnitSquare(Det(x, y, z));
  }

  lemma UnitSquare(d: real)
    requires d * d == 1.0
    ensures d == 1.0 || d == -1.0
  {
    assert (d - 1.0) * (d + 1.0) == 0.0;
  }

  function AxisOf(placement: Frame, i: nat): Vec
    requires i < 3
  {
    if i == 0 then placement.xAxis else if i == 1 then placement.yAxis else placement.zAxis
  }

  /** The product of two axes is that of an exact frame to within a billionth. */
  ghost predicate IsNearExact(placement: Frame, i: nat, j: nat)
    requires i < 3 && j < 3
  {
    var exact := if i == j then 1.0 else 0.0;
    exact - 0.000000001 <= Dot(AxisOf(placement, i), AxisOf(placement, j)) <= exact + 0.000000001
  }

  /**
   A frame is accepted exactly when all nine products of its axes are within a billionth of
   those of an exact frame, and the volume they span is not more than that below one.
   */
  lemma TrustworthyIsNearExact(placement: Frame)
    ensures IsTrustworthy(placement) <==>
            && (forall i: nat, j: nat :: i < 3 && j < 3 ==> IsNearExact(placement, i, j))
            && Det(placement.xAxis, placement.yAxis, placement.zAxis) >= 0.999999999
  {
    hide Dot, Cross;
    var x, y, z := placement.xAxis, placement.yAxis, placement.zAxis;
    DotCommutes(x, y);
    DotCommutes(x, z);
    DotCommutes(y, z);
    DetIsCyclic(x, y, z);
    DetIsCyclic(y, z, x);
    DotCommutes(Cross(x, y), z);
    if forall i: nat, j: nat :: i < 3 && j < 3 ==> IsNearExact(placement, i, j) {
      assert IsNearExact(placement, 0, 0) && IsNearExact(placement, 1, 1) && IsNearExact(placement, 2, 2);
      assert IsNearExact(placement, 0, 1) && IsNearExact(placement, 0, 2) && IsNearExact(placement, 1, 2);
    }
  }
}
