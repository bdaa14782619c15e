/**
 The stations of a sweep: a frame carried along a path, kept perpendicular to it, never
 turned over, and widened at the corners. The length of a vector is given.
 */
module SweepPaths {
  import opened MeshTopology
  import opened Prisms
  import opened Sweeps
  import Triangulation
  import opened Vectors
  import opened Wrappers

  // ----- Tangents -----

  function TangentAt(path: seq<Vec>, k: nat, length: Length): Option<Vec>
    requires k + 1 < |path|
  {
    UnitOf(Subtract(path[k + 1], path[k]), length)
  }

  predicate HasTangents(path: seq<Vec>, length: Length) {
    forall k: nat :: k + 1 < |path| ==> TangentAt(path, k, length).Some?
  }

  function Tangents(path: seq<Vec>, length: Length): (tangents: seq<Vec>)
    requires |path| >= 2 && HasTangents(path, length)
    ensures |tangents| == |path| - 1
  {
    seq(|path| - 1, (k: nat) requires k < |path| - 1 => TangentAt(path, k, length).value)
  }

  /** The direction of the path at a station, between its neighbours inside the path. */
  function StationTangent(tangents: seq<Vec>, k: nat): Vec
    requires tangents != [] && k <= |tangents|
  {
    if k == 0 then tangents[0]
    else if k == |tangents| then tangents[k - 1]
    else Add(tangents[k - 1], tangents[k])
  }

  // ----- The frame along the path -----

  datatype Axes = Axes(y: Vec, z: Vec)

  /** What is left of a vector across a direction. */
  function Across(v: Vec, direction: Vec): Vec {
    Subtract(v, Scale(direction, Dot(v, direction)))
  }

  function Opposite(v: Vec): Vec {
    Scale(v, -1.0)
  }

  /** Two axes across a direction, the first as near to `y` as possible. */
  function AxesAcross(direction: Vec, y: Vec, length: Length): Option<Axes> {
    var first := UnitOf(Across(y, direction), length);
    if first.None? then None
    else
      var second := UnitOf(Cross(direction, first.value), length);
      if second.None? then None else Some(Axes(first.value, second.value))
  }

  function FirstAxes(tangent: Vec, initialY: Vec, initialZ: Vec, length: Length): Option<Axes> {
    var axes := AxesAcross(tangent, initialY, length);
    if axes.None? then None
    else if Dot(axes.value.z, initialZ) < 0.0 then Some(Axes(axes.value.y, Opposite(axes.value.z)))
    else axes
  }

  /** The axes carried on, turned back when they would turn over. */
  function Carried(direction: Vec, previous: Axes, length: Length): Option<Axes> {
    var axes := AxesAcross(direction, previous.y, length);
    if axes.None? then None
    else if Dot(axes.value.z, previous.z) < 0.0 then Some(Axes(Opposite(axes.value.y), Opposite(axes.value.z)))
    else axes
  }

  function AxesAt(tangents: seq<Vec>, first: Axes, k: nat, length: Length): Option<Axes>
    requires tangents != [] && k <= |tangents|
    decreases k
  {
    var previous := if k == 0 then Some(first) else AxesAt(tangents, first, k - 1, length);
    var direction := UnitOf(StationTangent(tangents, k), length);
    if previous.None? || direction.None? then None else Carried(direction.value, previous.value, length)
  }

  /** Inside the path the section is widened along the axis that lies in the bend. */
  function Mitred(tangents: seq<Vec>, k: nat, direction: Vec, axes: Axes, length: Length): Axes
    requires k <= |tangents|
  {
    if k == 0 || k == |tangents| then axes
    else
      var bend, cosine := UnitOf(Cross(tangents[k - 1], tangents[k]), length), Dot(direction, tangents[k - 1]);
      if bend.None? || cosine <= SHORTEST then axes
      else if Magnitude(Dot(axes.y, bend.value)) >= Magnitude(Dot(axes.z, bend.value)) then
        axes.(z := Scale(axes.z, 1.0 / cosine))
      else axes.(y := Scale(axes.y, 1.0 / cosine))
  }

  function StationAt(path: seq<Vec>, tangents: seq<Vec>, first: Axes, k: nat, length: Length): Station
    requires tangents != [] && |path| == |tangents| + 1 && k < |path| && AxesAt(tangents, first, k, length).Some?
  {
    var direction := UnitOf(StationTangent(tangents, k), length).value;
    var axes := Mitred(tangents, k, direction, AxesAt(tangents, first, k, length).value, length);
    Station(path[k], axes.y, axes.z)
  }

  lemma {:induction false} EarlierAxes(tangents: seq<Vec>, first: Axes, k: nat, last: nat, length: Length)
    requires tangents != [] && k <= last <= |tangents| && AxesAt(tangents, first, last, length).Some?
    ensures AxesAt(tangents, first, k, length).Some?
    decreases last
  {
    hide Carried, UnitOf, StationTangent;
    if k < last { EarlierAxes(tangents, first, k, last - 1, length); }
  }

  /** The stations of a path, when every direction and axis it needs exists. */
  function StationsOf(path: seq<Vec>, initialY: Vec, initialZ: Vec, length: Length): Option<seq<Station>> {
    if |path| < 2 || !HasTangents(path, length) then None
    else
      var tangents := Tangents(path, length);
      var first := FirstAxes(tangents[0], initialY, initialZ, length);
      if first.None? || AxesAt(tangents, first.value, |tangents|, length).None? then None
      else
        Some(seq(|path|, (k: nat) requires k < |path| =>
          EarlierAxes(tangents, first.value, k, |tangents|, length);
          StationAt(path, tangents, first.value, k, length)))
  }

  /** The sweep of a section along a path. */
  ghost function PathMesh(section: Section, path: seq<Vec>, initialY: Vec, initialZ: Vec, length: Length)
    : Option<Mesh>
  {
    var stations := StationsOf(path, initialY, initialZ, length);
    if stations.None? then None else SweepMesh(section, stations.value)
  }

  // ----- The code -----

  method FindTangents(path: seq<Vec>, length: Length) returns (tangents: Option<seq<Vec>>)
    requires |path| >= 2
    ensures tangents == if HasTangents(path, length) then Some(Tangents(path, length)) else None
  {
    hide UnitOf;
    var list: seq<Vec> := [];
    for k := 0 to |path| - 1
      invariant |list| == k
      invariant forall j: nat :: j < k ==> TangentAt(path, j, length) == Some(list[j])
    {
      var tangent := UnitOf(Subtract(path[k + 1], path[k]), length);
      if tangent.None? {
        assert TangentAt(path, k, length).None?;
        return None;
      }
      list := list + [tangent.value];
    }
    assert HasTangents(path, length);
    assert list == Tangents(path, length);
    return Some(list);
  }

  method FindStations(path: seq<Vec>, initialY: Vec, initialZ: Vec, length: Length)
    returns (stations: Option<seq<Station>>)
    requires |path| >= 2
    ensures stations == StationsOf(path, initialY, initialZ, length)
  {
    hide UnitOf, HasTangents, Tangents, Carried, Mitred, StationTangent, FirstAxes;
    var tangents := FindTangents(path, length);
    if tangents.None? { return None; }
    var first := FirstAxes(tangents.value[0], initialY, initialZ, length);
    if first.None? { return None; }
    var list: seq<Station> := [];
    var previous := first.value;
    for k := 0 to |path|
      invariant |list| == k
      invariant previous == if k == 0 then first.value else AxesOf(tangents.value, first.value, k - 1, length)
      invariant forall j: nat :: j < k ==> IsStation(path, tangents.value, first.value, j, length, list[j])
    {
      var direction := UnitOf(StationTangent(tangents.value, k), length);
      if direction.None? {
        NoStations(path, tangents.value, first.value, k, length);
        return None;
      }
      var axes := Carried(direction.value, previous, length);
      if k > 0 { assert IsStation(path, tangents.value, first.value, k - 1, length, list[k - 1]); }
      if axes.None? {
        NoStations(path, tangents.value, first.value, k, length);
        return None;
      }
      var section := Mitred(tangents.value, k, direction.value, axes.value, length);
      list := list + [Station(path[k], section.y, section.z)];
      previous := axes.value;
    }
    AllStations(path, initialY, initialZ, tangents.value, first.value, length, list);
    return Some(list);
  }

  ghost function AxesOf(tangents: seq<Vec>, first: Axes, k: nat, length: Length): Axes
    requires tangents != [] && k <= |tangents|
  {
    if AxesAt(tangents, first, k, length).Some? then AxesAt(tangents, first, k, length).value else first
  }

  ghost predicate IsStation(path: seq<Vec>, tangents: seq<Vec>, first: Axes, k: nat, length: Length, station: Station)
    requires tangents != [] && |path| == |tangents| + 1 && k < |path|
  {
    AxesAt(tangents, first, k, length).Some? && station == StationAt(path, tangents, first, k, length)
  }

  lemma NoStations(path: seq<Vec>, tangents: seq<Vec>, first: Axes, k: nat, length: Length)
    requires tangents != [] && k <= |tangents| && AxesAt(tangents, first, k, length).None?
    ensures AxesAt(tangents, first, |tangents|, length).None?
  {
    hide AxesAt;
    if AxesAt(tangents, first, |tangents|, length).Some? { EarlierAxes(tangents, first, k, |tangents|, length); }
  }

  lemma AllStations(path: seq<Vec>, initialY: Vec, initialZ: Vec, tangents: seq<Vec>, first: Axes, length: Length,
                    list: seq<Station>)
    requires |path| >= 2 && HasTangents(path, length) && tangents == Tangents(path, length)
    requires FirstAxes(tangents[0], initialY, initialZ, length) == Some(first) && |list| == |path|
    requires forall j: nat :: j < |list| ==> IsStation(path, tangents, first, j, length, list[j])
    ensures StationsOf(path, initialY, initialZ, length) == Some(list)
  {
    hide AxesAt, StationAt, HasTangents, FirstAxes;
    assert IsStation(path, tangents, first, |tangents|, length, list[|tangents|]);
    var stations := StationsOf(path, initialY, initialZ, length).value;
    forall j: nat | j < |list| ensures stations[j] == list[j] {
      assert IsStation(path, tangents, first, j, length, list[j]);
    }
    assert stations == list;
  }

  /** Sweeps a section along a path. */
  method SweepPath(section: Section, path: seq<Vec>, initialY: Vec, initialZ: Vec, length: Length)
    returns (result: Option<Mesh>)
    ensures result == PathMesh(section, path, initialY, initialZ, length)
  {
    hide StationsOf, SweepPositions, SweepIndices;
    if |path| < 2 || |section.outer| < 3 {
      ShortPath(section, path, initialY, initialZ, length);
      return None;
    }
    var stations := FindStations(path, initialY, initialZ, length);
    if stations.None? { return None; }
    result := Sweep(section, stations.value);
  }

  lemma ShortPath(section: Section, path: seq<Vec>, initialY: Vec, initialZ: Vec, length: Length)
    requires |path| < 2 || |section.outer| < 3
    ensures PathMesh(section, path, initialY, initialZ, length).None?
  {
    hide AxesAt, StationAt, SweepPositions, SweepIndices;
  }

  // ----- The frames stay across the path -----

  /** Two unit axes across a direction and each other. */
  predicate IsFrame(direction: Vec, axes: Axes) {
    && Dot(axes.y, direction) == 0.0 && Dot(axes.z, direction) == 0.0 && Dot(axes.y, axes.z) == 0.0
    && Dot(axes.y, axes.y) == 1.0 && Dot(axes.z, axes.z) == 1.0
  }

  lemma RestIsAcross(v: Vec, t: Vec)
    requires Dot(t, t) == 1.0
    ensures Dot(Across(v, t), t) == 0.0
  {
    RestReals(v.x, v.y, v.z, t.x, t.y, t.z, Dot(v, t));
  }

  lemma RestReals(x: real, y: real, z: real, p: real, q: real, r: real, d: real)
    requires p * p + q * q + r * r == 1.0 && d == x * p + y * q + z * r
    ensures (x - p * d) * p + (y - q * d) * q + (z - r * d) * r == 0.0
  {
    assert (x - p * d) * p + (y - q * d) * q + (z - r * d) * r == d - d * (p * p + q * q + r * r);
  }

  lemma AcrossIsFrame(direction: Vec, y: Vec, length: Length)
    requires IsTrue(length) && Dot(direction, direction) == 1.0 && AxesAcross(direction, y, length).Some?
    ensures IsFrame(direction, AxesAcross(direction, y, length).value)
  {
    hide Dot, Cross, UnitOf, IsTrue, Across;
    var axes := AxesAcross(direction, y, length).value;
    RestIsAcross(y, direction);
    UnitIsUnit(Across(y, direction), length);
    UnitAcross(Across(y, direction), direction, length);
    CrossIsAcross(direction, axes.y);
    UnitIsUnit(Cross(direction, axes.y), length);
    UnitAcross(Cross(direction, axes.y), direction, length);
    UnitAcross(Cross(direction, axes.y), axes.y, length);
  }

  lemma OppositeDots(a: Vec, b: Vec)
    ensures Dot(Opposite(a), b) == -Dot(a, b) && Dot(b, Opposite(a)) == -Dot(b, a)
  {
  }

  lemma OppositeIsFrame(direction: Vec, axes: Axes)
    requires IsFrame(direction, axes)
    ensures IsFrame(direction, Axes(Opposite(axes.y), Opposite(axes.z)))
  {
    hide Dot, Opposite;
    OppositeDots(axes.y, direction);
    OppositeDots(axes.z, direction);
    OppositeDots(axes.y, Opposite(axes.z));
    OppositeDots(axes.z, axes.y);
    OppositeDots(axes.y, Opposite(axes.y));
    OppositeDots(axes.y, axes.y);
    OppositeDots(axes.z, Opposite(axes.z));
    OppositeDots(axes.z, axes.z);
  }

  /** At every station the carried axes form a frame across the path that is not turned over. */
  lemma CarriedFrames(tangents: seq<Vec>, first: Axes, k: nat, length: Length)
    requires IsTrue(length) && tangents != [] && k <= |tangents| && AxesAt(tangents, first, k, length).Some?
    ensures UnitOf(StationTangent(tangents, k), length).Some?
    ensures IsFrame(UnitOf(StationTangent(tangents, k), length).value, AxesAt(tangents, first, k, length).value)
    ensures k > 0 ==>
              && AxesAt(tangents, first, k - 1, length).Some?
              && Dot(AxesAt(tangents, first, k, length).value.z, AxesAt(tangents, first, k - 1, length).value.z) >= 0.0
  {
    hide Dot, UnitOf, IsTrue, IsFrame, AxesAcross, StationTangent;
    var direction := UnitOf(StationTangent(tangents, k), length).value;
    var previous := if k == 0 then first else AxesAt(tangents, first, k - 1, length).value;
    var axes := AxesAcross(direction, previous.y, length).value;
    UnitIsUnit(StationTangent(tangents, k), length);
    AcrossIsFrame(direction, previous.y, length);
    OppositeIsFrame(direction, axes);
    OppositeDots(axes.z, previous.z);
  }

  /** Every point of a ring lies in the plane through the station across the path. */
  lemma RingIsAcross(path: seq<Vec>, tangents: seq<Vec>, first: Axes, k: nat, length: Length, p: Triangulation.Point)
    requires IsTrue(length) && tangents != [] && |path| == |tangents| + 1 && k < |path|
    requires AxesAt(tangents, first, k, length).Some?
    ensures UnitOf(StationTangent(tangents, k), length).Some?
    ensures var direction := UnitOf(StationTangent(tangents, k), length).value;
            var station := StationAt(path, tangents, first, k, length);
            Dot(Subtract(StationPoint(station, p), path[k]), direction) == 0.0
  {
    hide UnitOf, IsTrue, AxesAt, StationTangent, Carried, Mitred, IsFrame, Dot, Subtract, StationPoint;
    CarriedFrames(tangents, first, k, length);
    var direction := UnitOf(StationTangent(tangents, k), length).value;
    var axes := AxesAt(tangents, first, k, length).value;
    var section := Mitred(tangents, k, direction, axes, length);
    MitredIsAcross(tangents, k, direction, axes, length);
    PlanePoint(Station(path[k], section.y, section.z), direction, p);
  }

  lemma PlanePoint(station: Station, direction: Vec, p: Triangulation.Point)
    requires Dot(station.yAxis, direction) == 0.0 && Dot(station.zAxis, direction) == 0.0
    ensures Dot(Subtract(StationPoint(station, p), station.origin), direction) == 0.0
  {
    var y, z := station.yAxis, station.zAxis;
    var w := Subtract(StationPoint(station, p), station.origin);
    assert w == Vec(y.x * p.x + z.x * p.y, y.y * p.x + z.y * p.y, y.z * p.x + z.z * p.y);
    PlaneReals(y.x, y.y, y.z, z.x, z.y, z.z, direction.x, direction.y, direction.z, p.x, p.y);
  }

  lemma MitredIsAcross(tangents: seq<Vec>, k: nat, direction: Vec, axes: Axes, length: Length)
    requires k <= |tangents| && IsFrame(direction, axes)
    ensures var section := Mitred(tangents, k, direction, axes, length);
            Dot(section.y, direction) == 0.0 && Dot(section.z, direction) == 0.0
  {
    hide UnitOf, Dot, Scale, Cross;
    if 0 < k < |tangents| {
      var side := Dot(direction, tangents[k - 1]);
      if side > SHORTEST {
        ScaledAcross(axes.y, direction, 1.0 / side);
        ScaledAcross(axes.z, direction, 1.0 / side);
      }
    }
  }

  lemma PlaneReals(a: real, b: real, c: real, d: real, e: real, f: real, p: real, q: real, r: real, u: real, v: real)
    requires a * p + b * q + c * r == 0.0 && d * p + e * q + f * r == 0.0
    ensures (a * u + d * v) * p + (b * u + e * v) * q + (c * u + f * v) * r == 0.0
  {
    assert (a * u + d * v) * p + (b * u + e * v) * q + (c * u + f * v) * r
        == u * (a * p + b * q + c * r) + v * (d * p + e * q + f * r);
  }

  /** Whatever the path, a sweep along it is a closed oriented surface exactly when its section allows it. */
  lemma PathSweepIsClosed(section: Section, path: seq<Vec>, initialY: Vec, initialZ: Vec, length: Length)
    requires WellFormed(section) && PathMesh(section, path, initialY, initialZ, length).Some?
    ensures var mesh := PathMesh(section, path, initialY, initialZ, length).value;
      && |mesh.positions| == |path| * (|section.outer| + |section.inner|)
      && (ClosedSurface(mesh.indices, |mesh.positions|) <==>
           if section.kind.Solid? then section.inner == [] && Capped(section) else |section.outer| == |section.inner|)
  {
    hide WellFormed, Capped, ClosedBuffer, SweepIndices, SweepPositions, AxesAt, StationAt;
    var stations := StationsOf(path, initialY, initialZ, length).value;
    SweepIsClosed(section, stations);
    SweepPositionsLength(section, stations);
    StationBaseIsProduct(|stations|, |section.outer| + |section.inner|);
  }
}
