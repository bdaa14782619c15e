/**
 The stations of a lofted plate: two rails paired at the parameters of both, and the plate
 normal at every pair. The length of a vector is given.
 */
module LoftRails {
  import opened LoftPlates
  import opened MeshTopology
  import opened Prisms
  import opened Vectors
  import opened Wrappers

  // ----- Rails and their parameters -----

  /** A rail in the world: its points are placed in the frame twice. */
  function Placed(rail: seq<Vec>, frame: Frame): (placed: seq<Vec>)
    ensures |placed| == |rail|
  {
    seq(|rail|, (k: nat) requires k < |rail| =>
      var local := PointIn(frame, rail[k].x, rail[k].y, rail[k].z);
      PointIn(frame, local.x, local.y, local.z))
  }

  /** How far along the rail a point lies. */
  function Along(rail: seq<Vec>, k: nat, length: Length): real
    requires k < |rail|
  {
    if k == 0 then 0.0 else Along(rail, k - 1, length) + length(Subtract(rail[k], rail[k - 1]))
  }

  const SHORTEST_RAIL: real := 0.000000001

  predicate IsRail(rail: seq<Vec>, length: Length) {
    |rail| >= 2 && Along(rail, |rail| - 1, length) > SHORTEST_RAIL
  }

  /** The points of a rail as shares of its length. */
  function Shares(rail: seq<Vec>, length: Length): (shares: seq<real>)
    requires IsRail(rail, length)
    ensures |shares| == |rail|
  {
    seq(|rail|, (k: nat) requires k < |rail| => Share(Along(rail, k, length), Along(rail, |rail| - 1, length)))
  }

  ghost predicate IsSorted(values: seq<real>) {
    forall i, j :: 0 <= i < j < |values| ==> values[i] <= values[j]
  }

  function Inserted(values: seq<real>, x: real): seq<real> {
    if values == [] || values[|values| - 1] <= x then values + [x]
    else Inserted(values[..|values| - 1], x) + [values[|values| - 1]]
  }

  function Sorted(values: seq<real>): seq<real> {
    if values == [] then [] else Inserted(Sorted(values[..|values| - 1]), values[|values| - 1])
  }

  lemma {:induction false} InsertedKeeps(values: seq<real>, x: real)
    ensures multiset(Inserted(values, x)) == multiset(values) + multiset{x}
    ensures forall v :: v in Inserted(values, x) ==> v == x || v in values
  {
    if values != [] && values[|values| - 1] > x {
      InsertedKeeps(values[..|values| - 1], x);
      assert values == values[..|values| - 1] + [values[|values| - 1]];
    }
  }

  lemma {:induction false} InsertedSorts(values: seq<real>, x: real)
    requires IsSorted(values)
    ensures IsSorted(Inserted(values, x))
  {
    if values != [] && values[|values| - 1] > x {
      var n := |values| - 1;
      InsertedSorts(values[..n], x);
      InsertedKeeps(values[..n], x);
      var front := Inserted(values[..n], x);
      forall i | 0 <= i < |front| ensures front[i] <= values[n] {
        assert front[i] in front;
        if front[i] != x {
          var k :| 0 <= k < n && values[..n][k] == front[i];
          assert values[k] == front[i];
        }
      }
    }
  }

  /** Sorting ascends and neither loses nor invents a value. */
  lemma {:induction false} SortedIsPermutation(values: seq<real>)
    ensures IsSorted(Sorted(values)) && multiset(Sorted(values)) == multiset(values)
  {
    if values != [] {
      var n := |values| - 1;
      SortedIsPermutation(values[..n]);
      InsertedSorts(Sorted(values[..n]), values[n]);
      InsertedKeeps(Sorted(values[..n]), values[n]);
      assert values == values[..n] + [values[n]];
    }
  }

  const SAME: real := 0.0000000001

  /** A sorted list without the values that follow the last kept one too closely. */
  function Thinned(values: seq<real>): (r: seq<real>)
    ensures values != [] ==> r != []
  {
    if |values| <= 1 then values
    else
      var rest, last := Thinned(values[..|values| - 1]), values[|values| - 1];
      if last - rest[|rest| - 1] <= SAME && rest[|rest| - 1] - last <= SAME then rest else rest + [last]
  }

  /** Every value is more than the tolerance above the one before. */
  ghost predicate IsSpread(values: seq<real>) {
    forall i, j :: 0 <= i < j < |values| ==> values[i] + SAME < values[j]
  }

  /** Thinning keeps the first value, the last one up to the tolerance, and values apart. */
  lemma {:induction false} ThinnedIsSpread(values: seq<real>)
    requires values != [] && IsSorted(values)
    ensures var r := Thinned(values);
            && IsSpread(r) && r[0] == values[0]
            && r[|r| - 1] <= values[|values| - 1] <= r[|r| - 1] + SAME
  {
    if |values| > 1 {
      var n := |values| - 1;
      ThinnedIsSpread(values[..n]);
      assert values[..n][n - 1] == values[n - 1] && values[n - 1] <= values[n];
    }
  }

  /** The parameters at which the rails are paired: those of either rail, in order, without near repetitions. */
  function Parameters(first: seq<Vec>, second: seq<Vec>, length: Length): seq<real>
    requires IsRail(first, length) && IsRail(second, length)
  {
    Thinned(Sorted(Shares(first, length) + Shares(second, length)))
  }

  lemma SharesSpan(rail: seq<Vec>, length: Length)
    requires IsRail(rail, length)
    ensures Shares(rail, length)[0] == 0.0 && Shares(rail, length)[|rail| - 1] == 1.0
  {
    hide Share;
    ShareOfWhole(Along(rail, |rail| - 1, length));
    assert Along(rail, 0, length) == 0.0;
  }

  lemma ShareOfWhole(whole: real)
    requires whole > 0.0
    ensures Share(0.0, whole) == 0.0 && Share(whole, whole) == 1.0
  {
  }

  /** The parameters rise from at most 0 to 1, up to the tolerance, so a plate has at least two stations. */
  lemma ParametersSpan(first: seq<Vec>, second: seq<Vec>, length: Length)
    requires IsRail(first, length) && IsRail(second, length)
    ensures var parameters := Parameters(first, second, length);
            && IsSpread(parameters) && |parameters| >= 2
            && parameters[0] <= 0.0 && 1.0 <= parameters[|parameters| - 1] + SAME
  {
    hide Sorted, Shares, Thinned, Along;
    var values := Shares(first, length) + Shares(second, length);
    SortedIsPermutation(values);
    SharesSpan(first, length);
    Contains(values, 0, 0.0);
    SharesEnd(first, second, length);
    var sorted := Sorted(values);
    ThinnedIsSpread(sorted);
    var i :| 0 <= i < |sorted| && sorted[i] == 0.0;
    var j :| 0 <= j < |sorted| && sorted[j] == 1.0;
    assert sorted[0] <= 0.0 && 1.0 <= sorted[|sorted| - 1];
  }

  lemma Contains(values: seq<real>, k: nat, x: real)
    requires k < |values| && values[k] == x
    ensures x in multiset(values)
  {
  }

  lemma SharesEnd(first: seq<Vec>, second: seq<Vec>, length: Length)
    requires IsRail(first, length) && IsRail(second, length)
    ensures 1.0 in multiset(Shares(first, length) + Shares(second, length))
  {
    hide Shares, Along;
    SharesSpan(first, length);
    Contains(Shares(first, length) + Shares(second, length), |first| - 1, 1.0);
  }

  // ----- Points at a parameter -----

  const TOUCH: real := 0.000000000001

  function SampleFrom(rail: seq<Vec>, shares: seq<real>, parameter: real, k: nat): Vec
    requires |rail| == |shares| && 1 <= k <= |shares|
    decreases |shares| - k
  {
    if k == |shares| then rail[|rail| - 1]
    else if parameter > shares[k] + TOUCH then SampleFrom(rail, shares, parameter, k + 1)
    else
      var span := shares[k] - shares[k - 1];
      var fraction := if span <= TOUCH then 0.0 else (parameter - shares[k - 1]) / span;
      Add(rail[k - 1], Scale(Subtract(rail[k], rail[k - 1]), fraction))
  }

  function SampleAt(rail: seq<Vec>, shares: seq<real>, parameter: real): Vec
    requires |rail| == |shares| && |rail| >= 1
  {
    if parameter <= 0.0 then rail[0] else SampleFrom(rail, shares, parameter, 1)
  }

  function Samples(rail: seq<Vec>, shares: seq<real>, parameters: seq<real>): (points: seq<Vec>)
    requires |rail| == |shares| && |rail| >= 1
    ensures |points| == |parameters|
  {
    seq(|parameters|, (k: nat) requires k < |parameters| => SampleAt(rail, shares, parameters[k]))
  }

  // ----- The stations -----

  function Midpoint(first: seq<Vec>, second: seq<Vec>, k: nat): Vec
    requires k < |first| == |second|
  {
    Scale(Add(first[k], second[k]), 0.5)
  }

  /** The direction of the plate at a pair: between the midpoints around it. */
  function PairTangent(first: seq<Vec>, second: seq<Vec>, k: nat): Vec
    requires 2 <= |first| == |second| && k < |first|
  {
    if k == 0 then Subtract(Midpoint(first, second, 1), Midpoint(first, second, 0))
    else if k + 1 == |first| then Subtract(Midpoint(first, second, k), Midpoint(first, second, k - 1))
    else Subtract(Midpoint(first, second, k + 1), Midpoint(first, second, k - 1))
  }

  function PairNormal(first: seq<Vec>, second: seq<Vec>, k: nat, length: Length): Option<Vec>
    requires 2 <= |first| == |second| && k < |first|
  {
    UnitOf(Cross(PairTangent(first, second, k), Subtract(second[k], first[k])), length)
  }

  predicate HasNormals(first: seq<Vec>, second: seq<Vec>, length: Length)
    requires 2 <= |first| == |second|
  {
    forall k: nat :: k < |first| ==> PairNormal(first, second, k, length).Some?
  }

  function Pairs(first: seq<Vec>, second: seq<Vec>, half: real, length: Length): (stations: seq<LoftStation>)
    requires 2 <= |first| == |second| && HasNormals(first, second, length)
    ensures |stations| == |first|
  {
    seq(|first|, (k: nat) requires k < |first| =>
      LoftStation(first[k], second[k], Scale(PairNormal(first, second, k, length).value, half)))
  }

  /** The paired points of two rails. */
  function Paired(rail: seq<Vec>, other: seq<Vec>, own: seq<Vec>, length: Length): (points: seq<Vec>)
    requires IsRail(rail, length) && IsRail(other, length) && IsRail(own, length)
    ensures |points| == |Parameters(rail, other, length)|
  {
    Samples(own, Shares(own, length), Parameters(rail, other, length))
  }

  /** The stations of a plate, when it has thickness, rails with length, and a normal at every pair. */
  function LoftStations(first: seq<Vec>, second: seq<Vec>, thickness: real, length: Length): Option<seq<LoftStation>> {
    if thickness <= 0.0 || !IsRail(first, length) || !IsRail(second, length) then None
    else
      ParametersSpan(first, second, length);
      var a, b := Paired(first, second, first, length), Paired(first, second, second, length);
      if !HasNormals(a, b, length) then None else Some(Pairs(a, b, thickness / 2.0, length))
  }

  // ----- The code -----

  method PlaceRail(rail: seq<Vec>, frame: Frame) returns (placed: seq<Vec>)
    ensures placed == Placed(rail, frame)
  {
    hide PointIn;
    placed := [];
    for k := 0 to |rail|
      invariant placed == Placed(rail, frame)[..k]
    {
      var local := PointIn(frame, rail[k].x, rail[k].y, rail[k].z);
      placed := placed + [PointIn(frame, local.x, local.y, local.z)];
    }
  }

  /** Adds up the lengths and turns them into shares, unless the rail is too short. */
  method ShareRail(rail: seq<Vec>, length: Length) returns (shares: Option<seq<real>>)
    requires |rail| >= 2
    ensures shares == if IsRail(rail, length) then Some(Shares(rail, length)) else None
  {
    hide Shares;
    var sums := [0.0];
    for k := 1 to |rail|
      invariant |sums| == k && forall j :: 0 <= j < k ==> sums[j] == Along(rail, j, length)
    {
      sums := sums + [sums[k - 1] + length(Subtract(rail[k], rail[k - 1]))];
    }
    if sums[|sums| - 1] <= SHORTEST_RAIL { return None; }
    var divided := DivideByLast(rail, length, sums);
    return Some(divided);
  }

  /** Divides every sum by the last one, which is itself divided last. */
  method DivideByLast(rail: seq<Vec>, length: Length, sums: seq<real>) returns (shares: seq<real>)
    requires IsRail(rail, length) && |sums| == |rail|
    requires forall j :: 0 <= j < |rail| ==> sums[j] == Along(rail, j, length)
    ensures shares == Shares(rail, length)
  {
    hide Share, Along;
    shares := sums;
    var last := |sums| - 1;
    for k := 0 to |sums|
      invariant |shares| == |sums| && (k <= last ==> shares[last] == sums[last])
      invariant shares[..k] == Shares(rail, length)[..k] && shares[k..] == sums[k..]
    {
      assert shares[k] == shares[k..][0];
      shares := shares[k := Share(shares[k], shares[last])];
    }
  }

  method SortParameters(values: seq<real>) returns (sorted: seq<real>)
    ensures sorted == Sorted(values)
  {
    sorted := [];
    for k := 0 to |values|
      invariant sorted == Sorted(values[..k])
    {
      assert values[..k + 1][..k] == values[..k];
      sorted := Inserted(sorted, values[k]);
    }
    assert values[..|values|] == values;
  }

  method Thin(values: seq<real>) returns (kept: seq<real>)
    ensures kept == Thinned(values)
  {
    kept := [];
    for k := 0 to |values|
      invariant kept == Thinned(values[..k])
    {
      assert values[..k + 1][..k] == values[..k];
      if kept == [] {
        kept := [values[k]];
      } else {
        var gap := values[k] - kept[|kept| - 1];
        if gap > SAME || gap < -SAME { kept := kept + [values[k]]; }
      }
    }
    assert values[..|values|] == values;
  }

  method Sample(rail: seq<Vec>, shares: seq<real>, parameters: seq<real>) returns (points: seq<Vec>)
    requires |rail| == |shares| && |rail| >= 1
    ensures points == Samples(rail, shares, parameters)
  {
    hide SampleAt;
    points := [];
    for k := 0 to |parameters|
      invariant points == Samples(rail, shares, parameters)[..k]
    {
      var point := SampleOne(rail, shares, parameters[k]);
      points := points + [point];
    }
  }

  method SampleOne(rail: seq<Vec>, shares: seq<real>, parameter: real) returns (point: Vec)
    requires |rail| == |shares| && |rail| >= 1
    ensures point == SampleAt(rail, shares, parameter)
  {
    hide Add, Scale, Subtract;
    if parameter <= 0.0 { return rail[0]; }
    for k := 1 to |shares|
      invariant SampleFrom(rail, shares, parameter, 1) == SampleFrom(rail, shares, parameter, k)
    {
      if parameter > shares[k] + TOUCH { continue; }
      var span := shares[k] - shares[k - 1];
      var fraction := if span <= TOUCH then 0.0 else (parameter - shares[k - 1]) / span;
      return Add(rail[k - 1], Scale(Subtract(rail[k], rail[k - 1]), fraction));
    }
    return rail[|rail| - 1];
  }

  method PairUp(first: seq<Vec>, second: seq<Vec>, half: real, length: Length)
    returns (stations: Option<seq<LoftStation>>)
    requires 2 <= |first| == |second|
    ensures stations == if HasNormals(first, second, length) then Some(Pairs(first, second, half, length)) else None
  {
    hide PairNormal;
    var list: seq<LoftStation> := [];
    for k := 0 to |first|
      invariant |list| == k
      invariant forall j: nat :: j < k ==> IsPair(first, second, half, length, j, list[j])
    {
      var normal := PairNormal(first, second, k, length);
      if normal.None? { return None; }
      list := list + [LoftStation(first[k], second[k], Scale(normal.value, half))];
    }
    forall k: nat | k < |first| ensures PairNormal(first, second, k, length).Some? {
      assert IsPair(first, second, half, length, k, list[k]);
    }
    assert HasNormals(first, second, length);
    forall k: nat | k < |first| ensures list[k] == Pairs(first, second, half, length)[k] {
      assert IsPair(first, second, half, length, k, list[k]);
    }
    assert list == Pairs(first, second, half, length);
    return Some(list);
  }

  predicate IsPair(first: seq<Vec>, second: seq<Vec>, half: real, length: Length, k: nat, station: LoftStation)
    requires 2 <= |first| == |second| && k < |first|
  {
    && PairNormal(first, second, k, length).Some?
    && station == LoftStation(first[k], second[k], Scale(PairNormal(first, second, k, length).value, half))
  }

  /** Lofts a plate between two rails: a closed oriented surface, exactly when its stations exist. */
  method Loft(first: seq<Vec>, second: seq<Vec>, frame: Frame, thickness: real, length: Length)
    returns (result: Option<Mesh>)
    ensures result.Some? <==>
              |first| >= 2 && |second| >= 2
              && LoftStations(Placed(first, frame), Placed(second, frame), thickness, length).Some?
    ensures result.Some? ==>
              var stations := LoftStations(Placed(first, frame), Placed(second, frame), thickness, length).value;
              && result.value == Mesh(LoftPositions(stations), LoftIndices(|stations| - 1))
              && ClosedSurface(result.value.indices, |result.value.positions|)
  {
    hide Placed, IsRail, Shares, Sorted, Thinned, Samples, HasNormals, Pairs, LoftPositions, LoftIndices, ClosedBuffer;
    if thickness <= 0.0 || |first| < 2 || |second| < 2 { return None; }
    var a := PlaceRail(first, frame);
    var b := PlaceRail(second, frame);
    var aShares := ShareRail(a, length);
    if aShares.None? { return None; }
    var bShares := ShareRail(b, length);
    if bShares.None? { return None; }
    var sorted := SortParameters(aShares.value + bShares.value);
    var parameters := Thin(sorted);
    ParametersSpan(a, b, length);
    var aPoints := Sample(a, aShares.value, parameters);
    var bPoints := Sample(b, bShares.value, parameters);
    var stations := PairUp(aPoints, bPoints, thickness / 2.0, length);
    if stations.None? { return None; }
    LoftPlateIsClosed(stations.value);
    var mesh := LoftPlate(stations.value);
    return Some(mesh);
  }

  // ----- The thickness -----

  /** At every pair the plate is as thick as asked for, measured across the line between the rails. */
  lemma PlateIsThick(first: seq<Vec>, second: seq<Vec>, thickness: real, length: Length, k: nat)
    requires IsTrue(length) && LoftStations(first, second, thickness, length).Some?
    requires k < |LoftStations(first, second, thickness, length).value|
    ensures var station := LoftStations(first, second, thickness, length).value[k];
            && Dot(station.offset, station.offset) == (thickness / 2.0) * (thickness / 2.0)
            && Dot(station.offset, Subtract(station.second, station.first)) == 0.0
  {
    hide IsTrue, UnitOf, Cross, Dot, Scale, Subtract, LoftStations, Parameters, Samples, PairTangent;
    StationIsPair(first, second, thickness, length, k);
    var a, b := Paired(first, second, first, length), Paired(first, second, second, length);
    NormalIsThick(PairTangent(a, b, k), Subtract(b[k], a[k]), thickness / 2.0, length);
  }

  lemma StationIsPair(first: seq<Vec>, second: seq<Vec>, thickness: real, length: Length, k: nat)
    requires LoftStations(first, second, thickness, length).Some?
    requires k < |LoftStations(first, second, thickness, length).value|
    ensures IsRail(first, length) && IsRail(second, length)
    ensures var a, b := Paired(first, second, first, length), Paired(first, second, second, length);
            && 2 <= |a| == |b| && k < |a|
            && IsPair(a, b, thickness / 2.0, length, k, LoftStations(first, second, thickness, length).value[k])
  {
    hide IsRail, Paired, PairNormal, Scale, Parameters;
    ParametersSpan(first, second, length);
  }

  lemma NormalIsThick(tangent: Vec, rung: Vec, half: real, length: Length)
    requires IsTrue(length) && UnitOf(Cross(tangent, rung), length).Some?
    ensures var offset := Scale(UnitOf(Cross(tangent, rung), length).value, half);
            Dot(offset, offset) == half * half && Dot(offset, rung) == 0.0
  {
    hide IsTrue, UnitOf, Cross, Dot, Scale;
    var normal := UnitOf(Cross(tangent, rung), length).value;
    CrossIsAcross(tangent, rung);
    UnitIsUnit(Cross(tangent, rung), length);
    UnitAcross(Cross(tangent, rung), rung, length);
    ScaledAcross(normal, rung, half);
    ScaledSquare(normal, half);
  }

  lemma ScaledSquare(v: Vec, s: real)
    requires Dot(v, v) == 1.0
    ensures Dot(Scale(v, s), Scale(v, s)) == s * s
  {
    SquareReals(v.x, v.y, v.z, s);
  }

  lemma SquareReals(x: real, y: real, z: real, s: real)
    requires x * x + y * y + z * z == 1.0
    ensures (x * s) * (x * s) + (y * s) * (y * s) + (z * s) * (z * s) == s * s
  {
    assert (x * s) * (x * s) + (y * s) * (y * s) + (z * s) * (z * s) == (x * x + y * y + z * z) * (s * s);
  }
}
