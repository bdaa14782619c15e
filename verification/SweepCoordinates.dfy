/**
 Where a sweep along a path puts its section: the coordinates of every vertex in the carried
 axes, and the laws that fix those axes.
 */
module SweepCoordinates {
  import opened Prisms
  import opened SweepPaths
  import opened Sweeps
  import Triangulation
  import opened Vectors
  import opened Wrappers

  // ----- Directions -----

  /** A direction points along its vector. */
  lemma UnitPointsAlong(v: Vec, length: Length)
    requires UnitOf(v, length).Some?
    ensures length(v) > 0.0 && Scale(UnitOf(v, length).value, length(v)) == v
  {
  }

  /** Every tangent is a unit vector along its leg of the path. */
  lemma TangentsFollowLegs(path: seq<Vec>, length: Length, k: nat)
    requires IsTrue(length) && |path| >= 2 && HasTangents(path, length) && k + 1 < |path|
    ensures var leg, tangent := Subtract(path[k + 1], path[k]), Tangents(path, length)[k];
      && Dot(tangent, tangent) == 1.0 && length(leg) > 0.0 && Scale(tangent, length(leg)) == leg
  {
    hide UnitOf, IsTrue, Dot, Subtract;
    assert TangentAt(path, k, length).Some?;
    UnitPointsAlong(Subtract(path[k + 1], path[k]), length);
    UnitIsUnit(Subtract(path[k + 1], path[k]), length);
  }

  lemma ScaledDot(a: Vec, s: real, d: Vec)
    ensures Dot(Scale(a, s), d) == Mul(s, Dot(a, d)) && Dot(d, Scale(a, s)) == Mul(s, Dot(a, d))
  {
    assert Dot(Scale(a, s), d) == s * Dot(a, d) by {
      ScaledDotReals(a.x, a.y, a.z, d.x, d.y, d.z, s);
    }
  }

  lemma ScaledDotReals(x: real, y: real, z: real, p: real, q: real, r: real, s: real)
    ensures (x * s) * p + (y * s) * q + (z * s) * r == s * (x * p + y * q + z * r)
    ensures p * (x * s) + q * (y * s) + r * (z * s) == s * (x * p + y * q + z * r)
  {
  }

  lemma SumDot(a: Vec, b: Vec, d: Vec)
    ensures Dot(Add(a, b), d) == Dot(a, d) + Dot(b, d) && Dot(d, Add(a, b)) == Dot(d, a) + Dot(d, b)
    ensures Dot(a, d) == Dot(d, a)
  {
  }

  // ----- The axes -----

  /** The axes carried to a station of the path. */
  ghost function AxesOn(path: seq<Vec>, initialY: Vec, initialZ: Vec, k: nat, length: Length): Axes
    requires StationsOf(path, initialY, initialZ, length).Some? && k < |path|
  {
    var tangents := Tangents(path, length);
    var first := FirstAxes(tangents[0], initialY, initialZ, length).value;
    EarlierAxes(tangents, first, k, |tangents|, length);
    AxesAt(tangents, first, k, length).value
  }

  /** The direction of the path at a station. */
  ghost function DirectionOn(path: seq<Vec>, initialY: Vec, initialZ: Vec, k: nat, length: Length): Vec
    requires StationsOf(path, initialY, initialZ, length).Some? && k < |path|
  {
    var tangents := Tangents(path, length);
    var first := FirstAxes(tangents[0], initialY, initialZ, length).value;
    EarlierAxes(tangents, first, k, |tangents|, length);
    UnitOf(StationTangent(tangents, k), length).value
  }

  /** A frame across `direction`, right-handed with it. */
  predicate IsRightHanded(direction: Vec, axes: Axes) {
    Dot(Cross(direction, axes.y), axes.z) > 0.0
  }

  lemma OppositeCross(a: Vec, b: Vec)
    ensures Cross(a, Opposite(b)) == Opposite(Cross(a, b))
  {
  }

  /** New axes across a direction are right-handed, and the second has nothing of the old first one. */
  lemma AxesAcrossHold(direction: Vec, y: Vec, length: Length)
    requires IsTrue(length) && Dot(direction, direction) == 1.0 && AxesAcross(direction, y, length).Some?
    ensures var axes := AxesAcross(direction, y, length).value;
            IsRightHanded(direction, axes) && Dot(y, axes.z) == 0.0
  {
    hide Dot, Cross, UnitOf, IsTrue, Across, Subtract, Scale;
    var rest := Across(y, direction);
    var axes := AxesAcross(direction, y, length).value;
    var normal := Cross(direction, axes.y);
    AcrossIsFrame(direction, y, length);
    UnitPointsAlong(normal, length);
    ScaledDot(axes.z, length(normal), axes.z);
    MulOver(0.0, 1.0, 1.0);
    assert Dot(normal, axes.z) == length(normal) by { TimesOne(length(normal)); }
    UnitPointsAlong(rest, length);
    ScaledDot(axes.y, length(rest), axes.z);
    RestAndAlong(y, direction);
    ScaledDot(direction, Dot(y, direction), axes.z);
    SumDot(rest, Scale(direction, Dot(y, direction)), axes.z);
    SumDot(axes.z, axes.z, direction);
    TimesZero(length(rest));
    TimesZero(Dot(y, direction));
  }

  lemma TimesOne(a: real)
    ensures Mul(a, 1.0) == a
  {
  }

  lemma TimesZero(a: real)
    ensures Mul(a, 0.0) == 0.0
  {
  }

  lemma RestAndAlong(v: Vec, direction: Vec)
    ensures Add(Across(v, direction), Scale(direction, Dot(v, direction))) == v
  {
  }

  lemma OppositeHolds(direction: Vec, axes: Axes, y: Vec)
    requires IsRightHanded(direction, axes) && Dot(y, axes.z) == 0.0
    ensures var opposite := Axes(Opposite(axes.y), Opposite(axes.z));
            IsRightHanded(direction, opposite) && Dot(y, opposite.z) == 0.0
  {
    hide Dot, Cross, Opposite;
    OppositeCross(direction, axes.y);
    OppositeDots(Cross(direction, axes.y), Opposite(axes.z));
    OppositeDots(axes.z, Cross(direction, axes.y));
    OppositeDots(axes.z, y);
  }

  /**
   The axes at a station are unit vectors across the path there and across each other,
   right-handed with it, not turned over, and the first stays in the plane of the path's
   direction and the previous first axis. Nothing else is left to choose.
   */
  lemma AxesFollow(path: seq<Vec>, initialY: Vec, initialZ: Vec, k: nat, length: Length)
    requires IsTrue(length) && StationsOf(path, initialY, initialZ, length).Some? && k < |path|
    ensures var direction, axes :=
      DirectionOn(path, initialY, initialZ, k, length), AxesOn(path, initialY, initialZ, k, length);
      && IsFrame(direction, axes) && IsRightHanded(direction, axes)
      && (k > 0 ==>
            var previous := AxesOn(path, initialY, initialZ, k - 1, length);
            Dot(axes.z, previous.z) >= 0.0 && Dot(previous.y, axes.z) == 0.0)
  {
    hide Dot, Cross, UnitOf, IsTrue, IsFrame, IsRightHanded, AxesAcross, StationTangent, FirstAxes, HasTangents;
    var tangents := Tangents(path, length);
    var first := FirstAxes(tangents[0], initialY, initialZ, length).value;
    EarlierAxes(tangents, first, k, |tangents|, length);
    CarriedFrames(tangents, first, k, length);
    var direction := DirectionOn(path, initialY, initialZ, k, length);
    var previous := if k == 0 then first else AxesAt(tangents, first, k - 1, length).value;
    UnitIsUnit(StationTangent(tangents, k), length);
    AxesAcrossHold(direction, previous.y, length);
    OppositeHolds(direction, AxesAcross(direction, previous.y, length).value, previous.y);
  }

  lemma SquareIsPositive(a: real)
    ensures Mul(a, a) >= 0.0 && (Mul(a, a) == 0.0 ==> a == 0.0)
  {
    if a > 0.0 { MulPositive(a, a); }
    if a < 0.0 { MulPositive(-a, -a); }
  }

  lemma SquaredDistance(a: real, b: real)
    ensures Mul(a - b, a - b) == Mul(a, a) - 2.0 * Mul(a, b) + Mul(b, b)
  {
  }

  lemma DotParts(a: Vec, b: Vec)
    ensures Dot(a, b) == Mul(a.x, b.x) + Mul(a.y, b.y) + Mul(a.z, b.z)
  {
  }

  lemma SameUnit(a: Vec, b: Vec)
    requires Dot(a, a) == 1.0 && Dot(b, b) == 1.0 && Dot(a, b) == 1.0
    ensures a == b
  {
    hide Mul, Dot;
    DotParts(a, a);
    DotParts(b, b);
    DotParts(a, b);
    SquaredDistance(a.x, b.x);
    SquaredDistance(a.y, b.y);
    SquaredDistance(a.z, b.z);
    SquareIsPositive(a.x - b.x);
    SquareIsPositive(a.y - b.y);
    SquareIsPositive(a.z - b.z);
  }

  lemma UnitOfUnit(v: Vec, length: Length)
    requires IsTrue(length) && Dot(v, v) == 1.0
    ensures UnitOf(v, length) == Some(v)
  {
    hide Dot, Mul, Share;
    var l := length(v);
    assert l >= 0.0 && Mul(l, l) == Dot(v, v);
    OneRoot(l);
    WholeShare(v.x, l);
    WholeShare(v.y, l);
    WholeShare(v.z, l);
  }

  lemma WholeShare(a: real, b: real)
    requires b == 1.0
    ensures Share(a, b) == a
  {
  }

  lemma OneRoot(l: real)
    requires l >= 0.0 && Mul(l, l) == 1.0
    ensures l == 1.0
  {
    MulOver(l, 1.0, l);
    SameFactor(l + 1.0, l, 1.0);
  }

  /** Two unit vectors across the same two directions are the same or opposite. */
  lemma SameNormal(a: Vec, b: Vec, c: Vec, d: Vec, s: real)
    requires Dot(a, a) == 1.0 && Dot(b, b) == 1.0 && Dot(a, c) == 0.0 && Dot(a, d) == 0.0 && Dot(a, b) >= 0.0
    requires s != 0.0 && Scale(b, s) == Cross(c, d)
    ensures a == b
  {
    hide Dot, Cross, Scale;
    DoubleCrossVanishes(a, c, d);
    CrossScaled(a, b, s);
    Lagrange(a, b);
    ZeroDot();
    var dot := Dot(a, b);
    assert Mul(dot, dot) == 1.0 by { Squared(dot, Dot(a, a), Dot(b, b), Dot(Cross(a, b), Cross(a, b))); }
    OneRoot(dot);
    SameUnit(a, b);
  }

  lemma Squared(d: real, m: real, n: real, p: real)
    requires p == m * n - d * d && m == 1.0 && n == 1.0 && p == 0.0
    ensures Mul(d, d) == 1.0
  {
  }

  lemma CrossScaled(a: Vec, b: Vec, s: real)
    requires s != 0.0 && Cross(a, Scale(b, s)) == Vec(0.0, 0.0, 0.0)
    ensures Cross(a, b) == Vec(0.0, 0.0, 0.0)
  {
    CrossScaledReals(a.y, a.z, b.y, b.z, s);
    CrossScaledReals(a.z, a.x, b.z, b.x, s);
    CrossScaledReals(a.x, a.y, b.x, b.y, s);
  }

  lemma CrossScaledReals(p: real, q: real, u: real, v: real, s: real)
    requires s != 0.0 && p * (v * s) - q * (u * s) == 0.0
    ensures p * v - q * u == 0.0
  {
    assert (p * v - q * u) * s == 0.0;
  }

  /** At the start of the path the second axis has nothing of the given first one and is not turned from the second. */
  lemma AxesStart(path: seq<Vec>, initialY: Vec, initialZ: Vec, length: Length)
    requires IsTrue(length) && StationsOf(path, initialY, initialZ, length).Some?
    ensures path != []
    ensures var axes := AxesOn(path, initialY, initialZ, 0, length);
            Dot(initialY, axes.z) == 0.0 && Dot(axes.z, initialZ) >= 0.0
  {
    hide Dot, Cross, UnitOf, IsTrue, HasTangents, Tangents, Across, Scale, IsFrame, IsRightHanded;
    var tangents := Tangents(path, length);
    var tangent := tangents[0];
    TangentsFollowLegs(path, length, 0);
    UnitOfUnit(tangent, length);
    AxesAcrossHold(tangent, initialY, length);
    AcrossIsFrame(tangent, initialY, length);
    var across := AxesAcross(tangent, initialY, length).value;
    OppositeHolds(tangent, across, initialY);
    OppositeDots(across.z, initialZ);
    var first := FirstAxes(tangent, initialY, initialZ, length).value;
    EarlierAxes(tangents, first, 0, |tangents|, length);
    assert Dot(initialY, first.z) == 0.0 && Dot(first.z, initialZ) >= 0.0;
    CarriedFrames(tangents, first, 0, length);
    var axes := AxesOn(path, initialY, initialZ, 0, length);
    assert axes.z == first.z by { FirstStays(tangent, initialY, initialZ, length); }
  }

  lemma FirstNormal(tangent: Vec, initialY: Vec, initialZ: Vec, length: Length) returns (s: real)
    requires IsTrue(length) && Dot(tangent, tangent) == 1.0 && FirstAxes(tangent, initialY, initialZ, length).Some?
    ensures var first := FirstAxes(tangent, initialY, initialZ, length).value;
            s != 0.0 && Scale(first.z, s) == Cross(tangent, first.y) && Dot(first.z, first.z) == 1.0
  {
    hide Dot, Cross, UnitOf, IsTrue, Across, Scale, Opposite;
    var across := AxesAcross(tangent, initialY, length).value;
    AcrossIsFrame(tangent, initialY, length);
    OppositeIsFrame(tangent, across);
    var normal := Cross(tangent, across.y);
    UnitPointsAlong(normal, length);
    OppositeScales(across.z, length(normal));
    s := if Dot(across.z, initialZ) < 0.0 then -length(normal) else length(normal);
  }

  lemma CarriedNormal(direction: Vec, previous: Axes, length: Length)
    requires IsTrue(length) && Dot(direction, direction) == 1.0 && Carried(direction, previous, length).Some?
    ensures var z := Carried(direction, previous, length).value.z;
      && Dot(z, z) == 1.0 && Dot(z, direction) == 0.0 && Dot(z, previous.y) == 0.0 && Dot(z, previous.z) >= 0.0
  {
    hide Dot, Cross, UnitOf, IsTrue, Across, Opposite, IsRightHanded, AxesAcross;
    var axes := AxesAcross(direction, previous.y, length).value;
    AcrossIsFrame(direction, previous.y, length);
    AxesAcrossHold(direction, previous.y, length);
    OppositeIsFrame(direction, axes);
    OppositeHolds(direction, axes, previous.y);
    OppositeDots(axes.z, previous.z);
    SumDot(previous.y, previous.y, axes.z);
    SumDot(previous.y, previous.y, Opposite(axes.z));
  }

  /** Carrying the first axes to the first station leaves the second axis as it is. */
  lemma FirstStays(tangent: Vec, initialY: Vec, initialZ: Vec, length: Length)
    requires IsTrue(length) && Dot(tangent, tangent) == 1.0 && FirstAxes(tangent, initialY, initialZ, length).Some?
    requires Carried(tangent, FirstAxes(tangent, initialY, initialZ, length).value, length).Some?
    ensures var first := FirstAxes(tangent, initialY, initialZ, length).value;
            Carried(tangent, first, length).value.z == first.z
  {
    hide FirstAxes, Carried, Dot, Cross, Scale;
    var first := FirstAxes(tangent, initialY, initialZ, length).value;
    var s := FirstNormal(tangent, initialY, initialZ, length);
    CarriedNormal(tangent, first, length);
    SameNormal(Carried(tangent, first, length).value.z, first.z, tangent, first.y, s);
  }

  lemma OppositeScales(v: Vec, s: real)
    ensures Scale(Opposite(v), -s) == Scale(v, s)
  {
  }

  /** The ring of a station stands across the leg at an end of the path, and halfway between the legs at a corner. */
  lemma DirectionBisects(path: seq<Vec>, initialY: Vec, initialZ: Vec, k: nat, length: Length)
    requires IsTrue(length) && StationsOf(path, initialY, initialZ, length).Some? && k < |path|
    ensures |path| >= 2
    ensures var tangents, direction := Tangents(path, length), DirectionOn(path, initialY, initialZ, k, length);
      && (k == 0 ==> direction == tangents[0])
      && (k + 1 == |path| ==> direction == tangents[k - 1])
      && (0 < k < |path| - 1 ==>
            && Dot(direction, tangents[k - 1]) == Dot(direction, tangents[k])
            && exists s: real :: s > 0.0 && Scale(direction, s) == Add(tangents[k - 1], tangents[k]))
  {
    hide Dot, UnitOf, IsTrue, HasTangents, Carried, FirstAxes, Add, Scale;
    var tangents := Tangents(path, length);
    var first := FirstAxes(tangents[0], initialY, initialZ, length).value;
    EarlierAxes(tangents, first, k, |tangents|, length);
    TangentsFollowLegs(path, length, if k == 0 then 0 else k - 1);
    if k == 0 || k + 1 == |path| {
      UnitOfUnit(tangents[if k == 0 then 0 else k - 1], length);
    } else {
      TangentsFollowLegs(path, length, k);
      var sum := Add(tangents[k - 1], tangents[k]);
      UnitPointsAlong(sum, length);
      Bisects(tangents[k - 1], tangents[k], DirectionOn(path, initialY, initialZ, k, length), length(sum));
    }
  }

  lemma Bisects(a: Vec, b: Vec, d: Vec, s: real)
    requires Dot(a, a) == 1.0 && Dot(b, b) == 1.0 && s > 0.0 && Scale(d, s) == Add(a, b)
    ensures Dot(d, a) == Dot(d, b)
  {
    hide Dot, Scale, Add, Mul;
    SumDot(a, b, a);
    SumDot(a, b, b);
    SumDot(b, a, a);
    ScaledDot(d, s, a);
    ScaledDot(d, s, b);
    SameFactor(s, Dot(d, a), Dot(d, b));
  }

  lemma SameFactor(s: real, a: real, b: real)
    requires s > 0.0 && Mul(s, a) == Mul(s, b)
    ensures a == b
  {
    assert s * (a - b) == 0.0;
  }

  // ----- The vertices -----

  lemma {:induction false} RingInPlace(section: Section, stations: seq<Station>, k: nat, i: nat)
    requires k < |stations| && i < |section.outer| + |section.inner|
    ensures var ring, positions := |section.outer| + |section.inner|, SweepPositions(section, stations);
      && StationBase(k, ring) + i < |positions|
      && positions[StationBase(k, ring) + i] == StationPoint(stations[k], (section.outer + section.inner)[i])
  {
    hide StationPoint;
    var front := stations[..|stations| - 1];
    SweepPositionsLength(section, front);
    if k + 1 < |stations| { RingInPlace(section, front, k, i); }
  }

  lemma PointDots(station: Station, p: Triangulation.Point, d: Vec)
    ensures Dot(Subtract(StationPoint(station, p), station.origin), d)
              == Mul(p.x, Dot(station.yAxis, d)) + Mul(p.y, Dot(station.zAxis, d))
  {
    hide Dot, Mul;
    var y, z := Scale(station.yAxis, p.x), Scale(station.zAxis, p.y);
    assert Subtract(StationPoint(station, p), station.origin) == Add(y, z);
    SumDot(y, z, d);
    ScaledDot(station.yAxis, p.x, d);
    ScaledDot(station.zAxis, p.y, d);
  }

  lemma Widening(a: real, cosine: real)
    requires cosine > 0.0
    ensures Mul(Mul(a, Mul(1.0 / cosine, 1.0)), cosine) == a
  {
    assert (1.0 / cosine) * cosine == 1.0;
  }

  /** The coordinates a point has along the axes a station's own axes are widened from. */
  lemma WidenedDots(station: Station, p: Triangulation.Point, direction: Vec, axes: Axes, s: real, t: real)
    requires IsFrame(direction, axes)
    requires station.yAxis == Scale(axes.y, s) && station.zAxis == Scale(axes.z, t)
    ensures var w := Subtract(StationPoint(station, p), station.origin);
      && Dot(w, axes.y) == Mul(p.x, Mul(s, 1.0)) && Dot(w, axes.z) == Mul(p.y, Mul(t, 1.0))
  {
    hide Dot, Scale, Subtract, StationPoint, Mul;
    PointDots(station, p, axes.y);
    PointDots(station, p, axes.z);
    ScaledDot(axes.y, s, axes.y);
    ScaledDot(axes.y, s, axes.z);
    ScaledDot(axes.z, t, axes.y);
    ScaledDot(axes.z, t, axes.z);
    SumDot(axes.y, axes.y, axes.z);
    TimesZero(s);
    TimesZero(t);
    TimesZero(p.x);
    TimesZero(p.y);
  }

  lemma Unscaled(v: Vec)
    ensures Scale(v, 1.0) == v
  {
  }

  /** The section is widened along its second axis, along its first, or not at all. */
  datatype Bend = Straight | WideY(cosine: real) | WideZ(cosine: real)

  /** How the path bends at a station: the axis further from the normal of the bend takes the widening. */
  ghost function BendAt(tangents: seq<Vec>, k: nat, direction: Vec, axes: Axes, length: Length): Bend
    requires k <= |tangents|
  {
    if k == 0 || k == |tangents| then Straight
    else
      var normal, cosine := UnitOf(Cross(tangents[k - 1], tangents[k]), length), Dot(direction, tangents[k - 1]);
      if normal.None? || cosine <= 0.000000000001 then Straight
      else if Magnitude(Dot(axes.y, normal.value)) >= Magnitude(Dot(axes.z, normal.value)) then WideZ(cosine)
      else WideY(cosine)
  }

  lemma MitredScales(tangents: seq<Vec>, k: nat, direction: Vec, axes: Axes, length: Length)
    requires k <= |tangents|
    ensures var bend, section := BendAt(tangents, k, direction, axes, length),
                                 Mitred(tangents, k, direction, axes, length);
      && (bend.Straight? ==> section == axes)
      && (bend.WideY? ==> bend.cosine > 0.0 && section == Axes(Scale(axes.y, 1.0 / bend.cosine), axes.z))
      && (bend.WideZ? ==> bend.cosine > 0.0 && section == Axes(axes.y, Scale(axes.z, 1.0 / bend.cosine)))
  {
    hide UnitOf, Cross, Dot, Scale, Magnitude;
  }

  /**
   Vertex `i` of the ring at station `k` has the section point's coordinates along the carried
   axes, outer loop first; where the path bends, the coordinate across the normal of the bend
   is the section's divided by the cosine between the ring's direction and the leg before it.
   */
  lemma RingHasSection(section: Section, path: seq<Vec>, initialY: Vec, initialZ: Vec, length: Length, k: nat, i: nat,
                         vertex: nat)
    requires IsTrue(length) && PathMesh(section, path, initialY, initialZ, length).Some?
    requires k < |path| && i < |section.outer| + |section.inner|
    requires vertex == k * (|section.outer| + |section.inner|) + i
    ensures StationsOf(path, initialY, initialZ, length).Some?
    ensures var positions := PathMesh(section, path, initialY, initialZ, length).value.positions;
      && vertex < |positions|
      && var p := if i < |section.outer| then section.outer[i] else section.inner[i - |section.outer|];
         var direction, axes :=
           DirectionOn(path, initialY, initialZ, k, length), AxesOn(path, initialY, initialZ, k, length);
         var w, bend := Subtract(positions[vertex], path[k]),
                        BendAt(Tangents(path, length), k, direction, axes, length);
         && Dot(w, direction) == 0.0
         && (bend.WideY? ==> Mul(Dot(w, axes.y), bend.cosine) == p.x)
         && (!bend.WideY? ==> Dot(w, axes.y) == p.x)
         && (bend.WideZ? ==> Mul(Dot(w, axes.z), bend.cosine) == p.y)
         && (!bend.WideZ? ==> Dot(w, axes.z) == p.y)
  {
    hide Dot, Scale, Subtract, StationPoint, Mul, UnitOf, IsTrue, FirstAxes, Mitred, BendAt, SweepPositions;
    hide StationTangent;
    var ring, stations := |section.outer| + |section.inner|, StationsOf(path, initialY, initialZ, length).value;
    RingInPlace(section, stations, k, i);
    StationBaseIsProduct(k, ring);
    var tangents := Tangents(path, length);
    var first := FirstAxes(tangents[0], initialY, initialZ, length).value;
    EarlierAxes(tangents, first, k, |tangents|, length);
    var direction, axes :=
      DirectionOn(path, initialY, initialZ, k, length), AxesOn(path, initialY, initialZ, k, length);
    var station, p := stations[k], (section.outer + section.inner)[i];
    RingIsAcross(path, tangents, first, k, length, p);
    CarriedFrames(tangents, first, k, length);
    MitredScales(tangents, k, direction, axes, length);
    PlacedDots(station, p, direction, axes, BendAt(tangents, k, direction, axes, length));
  }

  lemma PlacedDots(station: Station, p: Triangulation.Point, direction: Vec, axes: Axes, bend: Bend)
    requires IsFrame(direction, axes)
    requires bend.Straight? ==> station.yAxis == axes.y && station.zAxis == axes.z
    requires !bend.Straight? ==> bend.cosine > 0.0
    requires bend.WideY? ==> station.yAxis == Scale(axes.y, 1.0 / bend.cosine) && station.zAxis == axes.z
    requires bend.WideZ? ==> station.yAxis == axes.y && station.zAxis == Scale(axes.z, 1.0 / bend.cosine)
    ensures var w := Subtract(StationPoint(station, p), station.origin);
      && (bend.WideY? ==> Mul(Dot(w, axes.y), bend.cosine) == p.x)
      && (!bend.WideY? ==> Dot(w, axes.y) == p.x)
      && (bend.WideZ? ==> Mul(Dot(w, axes.z), bend.cosine) == p.y)
      && (!bend.WideZ? ==> Dot(w, axes.z) == p.y)
  {
    hide Dot, Scale, Subtract, StationPoint, Mul, IsFrame;
    Unscaled(axes.y);
    Unscaled(axes.z);
    TimesOne(1.0);
    TimesOne(p.x);
    TimesOne(p.y);
    var s := if bend.WideY? then 1.0 / bend.cosine else 1.0;
    var t := if bend.WideZ? then 1.0 / bend.cosine else 1.0;
    WidenedDots(station, p, direction, axes, s, t);
    if !bend.Straight? {
      Widening(p.x, bend.cosine);
      Widening(p.y, bend.cosine);
    }
  }

  // ----- Which paths are refused -----

  /** The direction of what is long enough, as a vector that points along it. */
  lemma DirectionExists(v: Vec, length: Length)
    ensures UnitOf(v, length).Some? <==> length(v) > 0.000000000001
  {
    hide Share;
  }

  /** Enough of the vector is left across the direction. */
  predicate HasRest(v: Vec, direction: Vec, length: Length) {
    length(Subtract(v, Scale(direction, Dot(v, direction)))) > 0.000000000001
  }

  lemma AxesExist(direction: Vec, y: Vec, length: Length)
    requires IsTrue(length) && Dot(direction, direction) == 1.0
    ensures AxesAcross(direction, y, length).Some? <==> HasRest(y, direction, length)
  {
    hide UnitOf, Dot, Cross, Subtract, Scale, IsTrue;
    var first := UnitOf(Across(y, direction), length);
    DirectionExists(Across(y, direction), length);
    if first.Some? {
      UnitIsUnit(Across(y, direction), length);
      RestIsAcross(y, direction);
      UnitAcross(Across(y, direction), direction, length);
      var normal := Cross(direction, first.value);
      Lagrange(direction, first.value);
      UnitReals(Dot(direction, direction), Dot(first.value, first.value), Dot(direction, first.value),
          Dot(normal, normal));
      UnitOfUnit(normal, length);
    }
  }

  /** At the station the path has a direction, and the first axis carried there does not vanish across it. */
  ghost predicate CanCarry(tangents: seq<Vec>, first: Axes, k: nat, length: Length)
    requires tangents != [] && k <= |tangents|
  {
    var along := if k == 0 then tangents[0] else if k == |tangents| then tangents[k - 1]
                 else Add(tangents[k - 1], tangents[k]);
    && length(along) > 0.000000000001
    && (k > 0 ==> AxesAt(tangents, first, k - 1, length).Some?)
    && HasRest(if k == 0 then first.y else AxesAt(tangents, first, k - 1, length).value.y,
               UnitOf(along, length).value, length)
  }

  lemma AxesAtExist(tangents: seq<Vec>, first: Axes, k: nat, length: Length)
    requires IsTrue(length) && tangents != [] && k <= |tangents|
    ensures AxesAt(tangents, first, k, length).Some? <==> CanCarry(tangents, first, k, length)
  {
    hide UnitOf, IsTrue, HasRest, Add, AxesAcross;
    var along := StationTangent(tangents, k);
    DirectionExists(along, length);
    if length(along) > 0.000000000001 {
      UnitIsUnit(along, length);
      var direction := UnitOf(along, length).value;
      if k == 0 {
        AxesExist(direction, first.y, length);
      } else if AxesAt(tangents, first, k - 1, length).Some? {
        AxesExist(direction, AxesAt(tangents, first, k - 1, length).value.y, length);
      }
    }
  }

  /**
   A path is refused exactly when it has fewer than two points, a leg too short, a first axis
   that vanishes across the first leg, or a station where the two legs cancel or the carried
   axis vanishes.
   */
  lemma PathsAreRefused(path: seq<Vec>, initialY: Vec, initialZ: Vec, length: Length)
    requires IsTrue(length)
    ensures StationsOf(path, initialY, initialZ, length).Some? <==>
            && |path| >= 2 && HasTangents(path, length)
            && HasRest(initialY, Tangents(path, length)[0], length)
            && FirstAxes(Tangents(path, length)[0], initialY, initialZ, length).Some?
            && forall k: nat :: k < |path| ==>
                 CanCarry(Tangents(path, length),
                          FirstAxes(Tangents(path, length)[0], initialY, initialZ, length).value, k, length)
  {
    hide UnitOf, IsTrue, HasRest, HasTangents, Tangents, AxesAt, CanCarry, AxesAcross, TangentAt;
    if |path| >= 2 && HasTangents(path, length) {
      var tangents := Tangents(path, length);
      TangentsFollowLegs(path, length, 0);
      AxesExist(tangents[0], initialY, length);
      var first := FirstAxes(tangents[0], initialY, initialZ, length);
      if first.Some? {
        forall k: nat | k < |path|
            ensures AxesAt(tangents, first.value, k, length).Some? <==> CanCarry(tangents, first.value, k, length) {
          AxesAtExist(tangents, first.value, k, length);
        }
        if AxesAt(tangents, first.value, |tangents|, length).Some? {
          forall k: nat | k < |path| ensures AxesAt(tangents, first.value, k, length).Some? {
            EarlierAxes(tangents, first.value, k, |tangents|, length);
          }
        }
      }
    }
  }

  /** Tangents exist where legs are long, and the first axes where the given one does not vanish across the first leg. */
  lemma StartsExist(path: seq<Vec>, initialY: Vec, initialZ: Vec, length: Length)
    requires IsTrue(length) && |path| >= 2
    ensures HasTangents(path, length) <==>
            forall k: nat :: k + 1 < |path| ==> IsLongLeg(path, k, length)
    ensures HasTangents(path, length) ==>
              (FirstAxes(Tangents(path, length)[0], initialY, initialZ, length).Some? <==>
                HasRest(initialY, Tangents(path, length)[0], length))
  {
    hide UnitOf, IsTrue, HasRest, AxesAcross, Subtract;
    forall k: nat | k + 1 < |path| ensures TangentAt(path, k, length).Some? <==> IsLongLeg(path, k, length) {
      DirectionExists(Subtract(path[k + 1], path[k]), length);
    }
    if HasTangents(path, length) {
      TangentsFollowLegs(path, length, 0);
      AxesExist(Tangents(path, length)[0], initialY, length);
    }
  }

  predicate IsLongLeg(path: seq<Vec>, k: nat, length: Length)
    requires k + 1 < |path|
  {
    length(Subtract(path[k + 1], path[k])) > 0.000000000001
  }
}
