/**
 Bent rebar meshes: the cover adjustment by bisection, the curves of a mesh, and that the
 curves predicted before evaluation are exactly the ones evaluated, so what was admitted
 can always be retained.
 */
module BentMeshes {
  import opened Budgets
  import opened PolylineOffsets
  import opened Vectors
  import opened Wrappers

  datatype Error = InvalidGeometry | ResourceLimit

  // ----- Regular distances -----

  datatype Count = Count(n: nat) | Uncounted(error: Error)

  /** How many steps of a spacing fit from a start up to a limit, both ends included. */
  function RegularCount(start: real, limit: real, spacing: real): Count {
    if spacing <= 0.0 then Uncounted(InvalidGeometry)
    else if start > limit + 0.0000001 then Count(0)
    else
      var count := ((limit - start) / spacing + 0.000000001).Floor + 1;
      if count < 0 || count > SIZE_MAX then Uncounted(ResourceLimit) else Count(count)
  }

  /** The bar after `k` steps still lies within the limit, up to a billionth of a step. */
  predicate Fits(start: real, limit: real, spacing: real, k: int) {
    start + (k as real) * spacing <= limit + spacing * 0.000000001
  }

  lemma StepsAndRoom(start: real, limit: real, spacing: real, k: int)
    requires spacing > 0.0
    ensures Fits(start, limit, spacing, k) <==> k as real <= (limit - start) / spacing + 0.000000001
  {
    var room := (limit - start) / spacing;
    assert room * spacing == limit - start;
    if k as real <= room + 0.000000001 {
      Scaled(k as real, room + 0.000000001, spacing);
    }
    if k as real > room + 0.000000001 {
      ScaledMore(room + 0.000000001, k as real, spacing);
    }
    assert (room + 0.000000001) * spacing == limit - start + spacing * 0.000000001;
  }

  lemma Scaled(a: real, b: real, s: real)
    requires a <= b && s > 0.0
    ensures a * s <= b * s
  {
    assert (b - a) * s >= 0.0;
  }

  lemma ScaledMore(a: real, b: real, s: real)
    requires a < b && s > 0.0
    ensures a * s < b * s
  {
    assert (b - a) * s > 0.0;
  }

  /** The counted bars are exactly those that fit; nothing is counted without a spacing or beyond 64 bits. */
  lemma CountFills(start: real, limit: real, spacing: real)
    ensures var count := RegularCount(start, limit, spacing);
      && (spacing <= 0.0 <==> count == Uncounted(InvalidGeometry))
      && (spacing > 0.0 && start > limit + 0.0000001 ==> count == Count(0))
      && (spacing > 0.0 && start <= limit + 0.0000001 ==>
            && (count.Count? <==> Fits(start, limit, spacing, -1) && !Fits(start, limit, spacing, SIZE_MAX))
            && (count.Count? ==> forall k: nat :: k < count.n <==> Fits(start, limit, spacing, k)))
  {
    hide Fits;
    if spacing > 0.0 && start <= limit + 0.0000001 {
      var room := (limit - start) / spacing + 0.000000001;
      StepsAndRoom(start, limit, spacing, -1);
      StepsAndRoom(start, limit, spacing, SIZE_MAX);
      forall k: nat ensures Fits(start, limit, spacing, k) <==> k < room.Floor + 1 {
        StepsAndRoom(start, limit, spacing, k);
      }
    }
  }

  /** The distances are filled up to the limit: there is a first one if any fits, the last fits, one more does not. */
  ghost predicate FillUp(count: nat, start: real, limit: real, spacing: real) {
    if start > limit + 0.0000001 then count == 0
    else
      && (start <= limit ==> count >= 1)
      && (count >= 1 ==> start + ((count - 1) as real) * spacing <= limit + spacing * 0.000000001)
      && start + (count as real) * spacing > limit + spacing * 0.000000001
  }

  lemma CountFillsUp(start: real, limit: real, spacing: real)
    requires RegularCount(start, limit, spacing).Count?
    ensures spacing > 0.0 && FillUp(RegularCount(start, limit, spacing).n, start, limit, spacing)
  {
    hide RegularCount;
    CountFills(start, limit, spacing);
    var n := RegularCount(start, limit, spacing).n;
    if start <= limit + 0.0000001 {
      assert !Fits(start, limit, spacing, n);
      if n >= 1 {
        var last: nat := n - 1;
        assert Fits(start, limit, spacing, last);
      }
      if start <= limit { assert Fits(start, limit, spacing, 0); }
    }
  }

  function DistanceAt(start: real, k: nat, spacing: real): real {
    start + (k as real) * spacing
  }

  datatype Distances = Distances(values: seq<real>) | Unspaced(error: Error)

  method RegularDistances(start: real, limit: real, spacing: real, maximum: nat) returns (result: Distances)
    ensures result.Distances? <==>
              RegularCount(start, limit, spacing).Count? && RegularCount(start, limit, spacing).n <= maximum
    ensures result.Distances? ==> |result.values| == RegularCount(start, limit, spacing).n
    ensures result.Distances? ==>
              forall k: nat :: k < |result.values| ==>
                result.values[k] == DistanceAt(start, k, spacing) == start + (k as real) * spacing
    ensures result.Distances? ==> spacing > 0.0 && FillUp(|result.values|, start, limit, spacing)
    ensures result.Unspaced? ==> (result.error == InvalidGeometry <==> spacing <= 0.0)
  {
    hide RegularCount, FillUp;
    CountFills(start, limit, spacing);
    var count := RegularCount(start, limit, spacing);
    if count.Count? { CountFillsUp(start, limit, spacing); }
    if count.Uncounted? { return Unspaced(count.error); }
    if count.n > maximum { return Unspaced(ResourceLimit); }
    var values: seq<real> := [];
    for k := 0 to count.n
      invariant |values| == k && forall j: nat :: j < k ==> values[j] == DistanceAt(start, j, spacing)
    {
      values := values + [start + (k as real) * spacing];
    }
    return Distances(values);
  }

  // ----- The arrays of a mesh -----

  datatype Bent = Bent(polygon: seq<Vec>, stored: seq<real>, bendRadius: real, width: real,
                       longitudinalSpacing: real, crossSpacing: real,
                       longitudinalOverhang: real, crossOverhang: real,
                       longitudinalRadius: real, crossRadius: real)

  /** A polyline with its corners rounded off. */
  datatype Path = Path(length: real, entries: seq<Vec>, exits: seq<Vec>)

  datatype Sample = Sample(point: Vec, tangent: Direction)

  /** What needs square roots and angles: lengths, rounding off corners, and walking along the result. */
  datatype Measures = Measures(hypot: Hypot, length: Vec -> real, fillet: (seq<Vec>, real) -> Option<Path>,
                               walk: (seq<Vec>, Path, real) -> Option<Sample>)

  function Legs(bent: Bent): nat {
    if |bent.polygon| < 2 then 0 else |bent.polygon| - 1
  }

  function Repeated(values: seq<real>, n: nat): (r: seq<real>)
    ensures |r| == n * |values|
  {
    if n == 0 then [] else Repeated(values, n - 1) + values
  }

  /** The stored array; three shared values stand for every leg of a longer polygon. */
  function Geometry(bent: Bent): seq<real> {
    if |bent.stored| == 12 && Legs(bent) > 1 then
      bent.stored[..6] + Repeated(bent.stored[6..9], Legs(bent)) + bent.stored[9..]
    else bent.stored
  }

  predicate IsConsistent(bent: Bent) {
    |bent.polygon| >= 2 && |Geometry(bent)| == 9 + 3 * Legs(bent) && bent.width > 0.0 && bent.bendRadius >= 0.0
  }

  const SHORTEST_BENT_LEG: real := 0.0000001

  predicate HasLongLegs(bent: Bent, m: Measures) {
    forall k: nat :: k + 1 < |bent.polygon| ==> LegLength(bent.polygon, k, m.hypot) > SHORTEST_BENT_LEG
  }

  /** What the evaluation asks of its arrays before any curve is made. */
  predicate IsSound(bent: Bent, m: Measures) {
    IsConsistent(bent) && HasLongLegs(bent, m)
  }

  lemma SoundLegsAreLong(bent: Bent, m: Measures)
    requires IsSound(bent, m)
    ensures LegsAreLong(bent.polygon, m.hypot)
  {
    hide LegLength;
  }

  // ----- The shape for an adjustment -----

  /** The first turn that is not straight on, or 1. */
  function FirstTurn(directions: seq<Direction>, k: nat): real
    requires k <= |directions|
    decreases |directions| - k
  {
    if k + 1 >= |directions| then 1.0
    else
      var turn := Denominator(directions[k], directions[k + 1]);
      if turn > 0.00000001 || turn < -0.00000001 then turn else FirstTurn(directions, k + 1)
  }

  function TurnSign(bent: Bent, m: Measures): real
    requires IsSound(bent, m)
  {
    SoundLegsAreLong(bent, m);
    if FirstTurn(Directions(bent.polygon, m.hypot), 0) > 0.0 then 1.0 else -1.0
  }

  function StoredOffsets(bent: Bent): (offsets: seq<real>)
    requires IsConsistent(bent)
    ensures |offsets| == Legs(bent)
  {
    var geometry := Geometry(bent);
    seq(Legs(bent), (i: nat) requires i < Legs(bent) => (geometry[6 + 3 * i] + geometry[7 + 3 * i]) / 2.0)
  }

  function Adjusted(offset: real, sign: real, adjustment: real): real {
    sign * (offset - adjustment)
  }

  function AdjustedOffsets(offsets: seq<real>, sign: real, adjustment: real): (r: seq<real>)
    ensures |r| == |offsets|
  {
    seq(|offsets|, (i: nat) requires i < |offsets| => Adjusted(offsets[i], sign, adjustment))
  }

  datatype Fit = Fit(shape: seq<Vec>, path: Path)

  /** The offset polygon and its rounded path for an adjustment of the cover. */
  function FitFor(bent: Bent, m: Measures, adjustment: real): Option<Fit>
    requires IsSound(bent, m)
  {
    var offsets := AdjustedOffsets(StoredOffsets(bent), TurnSign(bent, m), adjustment);
    if !CanOffset(bent.polygon, offsets, m.hypot) then None
    else
      var shape := OffsetShape(bent.polygon, offsets, 0.0, 0.0, m.hypot);
      var path := m.fillet(shape, bent.bendRadius + bent.crossRadius);
      if path.None? then None else Some(Fit(shape, path.value))
  }

  /** By how much the path is longer than the mesh is wide. */
  function Excess(bent: Bent, m: Measures, adjustment: real): Option<real>
    requires IsSound(bent, m)
  {
    var fit := FitFor(bent, m, adjustment);
    if fit.None? then None else Some(fit.value.path.length - bent.width)
  }

  // ----- The adjustment -----

  datatype Bracket = Bracket(low: real, high: real)

  function Middle(bracket: Bracket): real {
    (bracket.low + bracket.high) / 2.0
  }

  /** The excess does not have the same sign at both ends. */
  predicate Straddles(bent: Bent, m: Measures, bracket: Bracket)
    requires IsSound(bent, m)
  {
    && Excess(bent, m, bracket.low).Some? && Excess(bent, m, bracket.high).Some?
    && Excess(bent, m, bracket.low).value * Excess(bent, m, bracket.high).value <= 0.0
  }

  /** One halving: the half whose ends differ in sign, the lower one if both do. */
  function Halve(bent: Bent, m: Measures, bracket: Bracket): Option<Bracket>
    requires IsSound(bent, m) && Excess(bent, m, bracket.low).Some?
  {
    var middle := Excess(bent, m, Middle(bracket));
    if middle.None? then None
    else if Excess(bent, m, bracket.low).value * middle.value <= 0.0 then Some(bracket.(high := Middle(bracket)))
    else Some(bracket.(low := Middle(bracket)))
  }

  lemma HalfStraddles(bent: Bent, m: Measures, bracket: Bracket)
    requires IsSound(bent, m) && Straddles(bent, m, bracket) && Halve(bent, m, bracket).Some?
    ensures var half := Halve(bent, m, bracket).value;
            Straddles(bent, m, half) && half.high - half.low == (bracket.high - bracket.low) / 2.0
  {
    hide Excess, IsSound;
    var low, high := Excess(bent, m, bracket.low).value, Excess(bent, m, bracket.high).value;
    var middle := Excess(bent, m, Middle(bracket)).value;
    if low * middle > 0.0 { SignsDiffer(low, high, middle); }
  }

  lemma SignsDiffer(a: real, b: real, c: real)
    requires a * b <= 0.0 && a * c > 0.0
    ensures c * b <= 0.0
  {
    if a > 0.0 {
      assert c > 0.0;
      assert b <= 0.0;
    } else {
      assert c < 0.0;
      assert b >= 0.0;
    }
  }

  function Bisect(bent: Bent, m: Measures, bracket: Bracket, steps: nat): Option<Bracket>
    requires IsSound(bent, m) && Excess(bent, m, bracket.low).Some?
    decreases steps
  {
    if steps == 0 then Some(bracket)
    else
      var half := Halve(bent, m, bracket);
      if half.None? then None else Bisect(bent, m, half.value, steps - 1)
  }

  function Halved(width: real, steps: nat): real
    decreases steps
  {
    if steps == 0 then width else Halved(width / 2.0, steps - 1)
  }

  lemma {:induction false} BisectStraddles(bent: Bent, m: Measures, bracket: Bracket, steps: nat)
    requires IsSound(bent, m) && Straddles(bent, m, bracket) && Bisect(bent, m, bracket, steps).Some?
    ensures var final := Bisect(bent, m, bracket, steps).value;
            Straddles(bent, m, final) && final.high - final.low == Halved(bracket.high - bracket.low, steps)
    decreases steps
  {
    hide IsSound, Excess, Halve;
    if steps > 0 {
      HalfStraddles(bent, m, bracket);
      BisectStraddles(bent, m, Halve(bent, m, bracket).value, steps - 1);
    }
  }

  function Least(values: seq<real>): real
    requires values != []
  {
    if |values| == 1 then values[0]
    else
      var rest := Least(values[..|values| - 1]);
      if values[|values| - 1] < rest then values[|values| - 1] else rest
  }

  const STEPS: nat := 60
  const LOOSEST: real := -100.0

  function WidestBracket(bent: Bent): Bracket
    requires IsConsistent(bent)
  {
    Bracket(LOOSEST, Least(StoredOffsets(bent)) - 0.0000001)
  }

  function IsClose(x: real): bool {
    -0.000001 <= x <= 0.000001
  }

  /** The adjustment at which the path is as long as the mesh is wide, as far as sixty halvings find it. */
  function Adjustment(bent: Bent, m: Measures): Option<real>
    requires IsSound(bent, m)
  {
    var unadjusted, bracket := Excess(bent, m, 0.0), WidestBracket(bent);
    if unadjusted.None? then None
    else if IsClose(unadjusted.value) then Some(0.0)
    else if !Straddles(bent, m, bracket) then None
    else
      var final := Bisect(bent, m, bracket, STEPS);
      if final.None? || FitFor(bent, m, Middle(final.value)).None? then None else Some(Middle(final.value))
  }

  /**
   An adjustment either leaves the mesh as stored, which is then wide enough to a millionth,
   or is the middle of a bracket in which the excess changes sign, halved sixty times.
   */
  lemma AdjustmentIsBracketed(bent: Bent, m: Measures)
    requires IsSound(bent, m) && Adjustment(bent, m).Some?
    ensures var a := Adjustment(bent, m).value;
            && FitFor(bent, m, a).Some?
            && ((a == 0.0 && -0.000001 <= FitFor(bent, m, 0.0).value.path.length - bent.width <= 0.000001)
                || exists final: Bracket :: a == (final.low + final.high) / 2.0 && Straddles(bent, m, final)
                     && final.high - final.low == Halved(Least(StoredOffsets(bent)) - 0.0000001 + 100.0, 60))
  {
    hide HasLongLegs, FitFor, StoredOffsets, Bisect;
    var bracket := WidestBracket(bent);
    if !IsClose(Excess(bent, m, 0.0).value) {
      BisectStraddles(bent, m, bracket, STEPS);
      assert Straddles(bent, m, Bisect(bent, m, bracket, STEPS).value);
    }
  }

  /** A stored cover at which the mesh is wide enough to a millionth is kept. */
  lemma WideEnoughIsKept(bent: Bent, m: Measures)
    requires IsSound(bent, m) && FitFor(bent, m, 0.0).Some?
    requires -0.000001 <= FitFor(bent, m, 0.0).value.path.length - bent.width <= 0.000001
    ensures Adjustment(bent, m) == Some(0.0)
  {
    hide IsSound, FitFor, WidestBracket, Bisect;
  }

  // ----- The code -----

  method NormalizeGeometry(bent: Bent) returns (geometry: seq<real>)
    ensures geometry == Geometry(bent)
  {
    if |bent.stored| != 12 || |bent.polygon| < 2 || |bent.polygon| - 1 <= 1 { return bent.stored; }
    var shared: seq<real> := [];
    for leg := 0 to Legs(bent)
      invariant shared == Repeated(bent.stored[6..9], leg)
    {
      shared := shared + bent.stored[6..9];
    }
    return bent.stored[..6] + shared + bent.stored[9..];
  }

  method FindTurnSign(bent: Bent, m: Measures, directions: seq<Direction>) returns (sign: real)
    requires IsSound(bent, m) && LegsAreLong(bent.polygon, m.hypot) && directions == Directions(bent.polygon, m.hypot)
    ensures sign == TurnSign(bent, m)
  {
    hide IsSound, Directions;
    var turn := 1.0;
    var k := 0;
    while k + 1 < |directions|
      invariant k <= |directions| && FirstTurn(directions, 0) == FirstTurn(directions, k) && turn == 1.0
      decreases |directions| - k
    {
      var here := Denominator(directions[k], directions[k + 1]);
      if here > 0.00000001 || here < -0.00000001 {
        return if here > 0.0 then 1.0 else -1.0;
      }
      k := k + 1;
    }
    return if turn > 0.0 then 1.0 else -1.0;
  }

  method FitShape(bent: Bent, m: Measures, offsets: seq<real>, sign: real, adjustment: real) returns (fit: Option<Fit>)
    requires IsSound(bent, m) && offsets == StoredOffsets(bent) && sign == TurnSign(bent, m)
    ensures fit == FitFor(bent, m, adjustment)
  {
    hide IsSound, CanOffset, OffsetShape, TurnSign, StoredOffsets, Adjusted;
    var adjusted: seq<real> := [];
    for i := 0 to |offsets|
      invariant adjusted == AdjustedOffsets(offsets, sign, adjustment)[..i]
    {
      adjusted := adjusted + [Adjusted(offsets[i], sign, adjustment)];
    }
    assert adjusted == AdjustedOffsets(offsets, sign, adjustment);
    var shape := OffsetPolyline(bent.polygon, adjusted, 0.0, 0.0, m.hypot);
    if shape.None? { return None; }
    var path := m.fillet(shape.value, bent.bendRadius + bent.crossRadius);
    return if path.None? then None else Some(Fit(shape.value, path.value));
  }

  method LeastOf(values: seq<real>) returns (least: real)
    requires values != []
    ensures least == Least(values)
  {
    least := values[0];
    for k := 1 to |values|
      invariant least == Least(values[..k])
    {
      assert values[..k + 1][..k] == values[..k];
      if values[k] < least { least := values[k]; }
    }
    assert values[..|values|] == values;
  }

  /** Fits the cover by bisection when the stored mesh is not as wide as it should be. */
  method Adjust(bent: Bent, m: Measures, offsets: seq<real>, sign: real) returns (fit: Option<Fit>)
    requires IsSound(bent, m) && offsets == StoredOffsets(bent) && offsets != [] && sign == TurnSign(bent, m)
    ensures fit == if Adjustment(bent, m).None? then None else FitFor(bent, m, Adjustment(bent, m).value)
  {
    hide IsSound, FitFor, StoredOffsets, TurnSign, Bisect;
    fit := FitShape(bent, m, offsets, sign, 0.0);
    if fit.None? || IsClose(fit.value.path.length - bent.width) { return; }
    var least := LeastOf(offsets);
    var low, high := LOOSEST, least - 0.0000001;
    var widest := Bracket(low, high);
    var lowFit := FitShape(bent, m, offsets, sign, low);
    var highFit := FitShape(bent, m, offsets, sign, high);
    if lowFit.None? || highFit.None? { return None; }
    var lowExcess, highExcess := lowFit.value.path.length - bent.width, highFit.value.path.length - bent.width;
    if lowExcess * highExcess > 0.0 { return None; }
    var final := Search(bent, m, offsets, sign, widest, lowExcess);
    if final.None? { return None; }
    fit := FitShape(bent, m, offsets, sign, Middle(final.value));
  }

  /** Halves a bracket sixty times. */
  method Search(bent: Bent, m: Measures, offsets: seq<real>, sign: real, widest: Bracket, widestExcess: real)
    returns (final: Option<Bracket>)
    requires IsSound(bent, m) && offsets == StoredOffsets(bent) && sign == TurnSign(bent, m)
    requires Excess(bent, m, widest.low) == Some(widestExcess)
    ensures final == Bisect(bent, m, widest, STEPS)
  {
    hide IsSound, FitFor, StoredOffsets, TurnSign, Bisect;
    var bracket, lowExcess := widest, widestExcess;
    for step := 0 to STEPS
      invariant Excess(bent, m, bracket.low) == Some(lowExcess)
      invariant Bisect(bent, m, widest, STEPS) == Bisect(bent, m, bracket, STEPS - step)
    {
      BisectStep(bent, m, bracket, STEPS - step);
      var middle := Middle(bracket);
      var middleFit := FitShape(bent, m, offsets, sign, middle);
      if middleFit.None? { return None; }
      var middleExcess := middleFit.value.path.length - bent.width;
      if lowExcess * middleExcess <= 0.0 {
        bracket := bracket.(high := middle);
      } else {
        bracket, lowExcess := bracket.(low := middle), middleExcess;
      }
    }
    BisectEnds(bent, m, bracket);
    return Some(bracket);
  }

  lemma BisectStep(bent: Bent, m: Measures, bracket: Bracket, steps: nat)
    requires IsSound(bent, m) && Excess(bent, m, bracket.low).Some? && steps > 0
    ensures var half := Halve(bent, m, bracket);
            && (half.Some? ==> Excess(bent, m, half.value.low).Some?)
            && Bisect(bent, m, bracket, steps) == if half.None? then None else Bisect(bent, m, half.value, steps - 1)
  {
    hide IsSound, Excess;
  }

  lemma BisectEnds(bent: Bent, m: Measures, bracket: Bracket)
    requires IsSound(bent, m) && Excess(bent, m, bracket.low).Some?
    ensures Bisect(bent, m, bracket, 0) == Some(bracket)
  {
  }

  // ----- The curves of a mesh -----

  datatype Centerlines = Centerlines(cross: seq<seq<Vec>>, longitudinal: seq<seq<Vec>>)

  datatype Evaluation = Evaluated(mesh: Centerlines) | Refused(error: Error)

  function VecAt(values: seq<real>, k: nat): Vec
    requires k + 3 <= |values|
  {
    Vec(values[k], values[k + 1], values[k + 2])
  }

  /** The line the cross bars are distributed along. */
  function Span(values: seq<real>): Vec
    requires |values| >= 6
  {
    Subtract(VecAt(values, 3), VecAt(values, 0))
  }

  lemma GeometryStarts(bent: Bent)
    requires IsConsistent(bent)
    ensures |bent.stored| >= 12 && |Geometry(bent)| >= 12 && Span(Geometry(bent)) == Span(bent.stored)
    ensures VecAt(Geometry(bent), 0) == VecAt(bent.stored, 0)
  {
    hide Repeated;
    assert Legs(bent) >= 1;
  }

  function CrossCount(bent: Bent, m: Measures): Count
    requires |bent.stored| >= 6
  {
    RegularCount(bent.longitudinalOverhang, m.length(Span(bent.stored)), bent.crossSpacing)
  }

  function LongitudinalCount(bent: Bent): Count {
    RegularCount(bent.crossOverhang, bent.width, bent.longitudinalSpacing)
  }

  /** Where the distribution starts, seen from the polygon. */
  function FromBase(bent: Bent): Vec
    requires |bent.stored| >= 6 && bent.polygon != []
  {
    var start := VecAt(bent.stored, 0);
    Subtract(start, Vec(start.x, start.y, bent.polygon[0].z))
  }

  function Translated(points: seq<Vec>, shift: Vec): (moved: seq<Vec>)
    ensures |moved| == |points|
  {
    seq(|points|, (i: nat) requires i < |points| => Add(points[i], shift))
  }

  /** The bar at a distance along the distribution line. */
  function CrossBar(bent: Bent, m: Measures, shape: seq<Vec>, distance: real): (bar: seq<Vec>)
    requires |bent.stored| >= 6 && bent.polygon != [] && m.length(Span(bent.stored)) > 0.0
    ensures |bar| == |shape|
  {
    var along := Scale(Scale(Span(bent.stored), 1.0 / m.length(Span(bent.stored))), distance);
    var start := VecAt(bent.stored, 0);
    Translated(shape, Subtract(Add(start, along), Vec(start.x, start.y, bent.polygon[0].z)))
  }

  /** The bar at a distance along the path, layered on the inside of the cross bars. */
  function LongitudinalBar(bent: Bent, sign: real, sample: Sample): (bar: seq<Vec>)
    requires |bent.stored| >= 6 && bent.polygon != []
    ensures |bar| == 2
  {
    var separation := bent.longitudinalRadius + bent.crossRadius;
    var layered := Vec(sample.point.x + -sample.tangent.dy * sign * separation,
                       sample.point.y + sample.tangent.dx * sign * separation, sample.point.z);
    var start := Add(layered, FromBase(bent));
    [start, Add(start, Span(bent.stored))]
  }

  function CrossDistance(bent: Bent, k: nat): real {
    DistanceAt(bent.longitudinalOverhang, k, bent.crossSpacing)
  }

  function WalkAt(bent: Bent, m: Measures, fit: Fit, k: nat): Option<Sample> {
    m.walk(fit.shape, fit.path, DistanceAt(bent.crossOverhang, k, bent.longitudinalSpacing))
  }

  const SHORTEST_SPAN: real := 0.000000001

  /** The shape can be fitted and the bars have somewhere to go. */
  predicate IsPlaceable(bent: Bent, m: Measures) {
    && IsSound(bent, m) && Adjustment(bent, m).Some?
    && |bent.stored| >= 6 && m.length(Span(bent.stored)) > SHORTEST_SPAN
  }

  function FitOf(bent: Bent, m: Measures): Fit
    requires IsPlaceable(bent, m)
  {
    AdjustmentIsBracketed(bent, m);
    FitFor(bent, m, Adjustment(bent, m).value).value
  }

  /** The bars fit the limit, and every longitudinal one lies on the path. */
  predicate IsEvaluable(bent: Bent, m: Measures, maximum: nat) {
    && IsPlaceable(bent, m)
    && CrossCount(bent, m).Count? && LongitudinalCount(bent).Count?
    && CrossCount(bent, m).n + LongitudinalCount(bent).n <= maximum
    && forall k: nat :: k < LongitudinalCount(bent).n ==> WalkAt(bent, m, FitOf(bent, m), k).Some?
  }

  /** Exactly the predicted bars, each in its place. */
  ghost predicate IsMesh(bent: Bent, m: Measures, mesh: Centerlines)
    requires IsPlaceable(bent, m) && CrossCount(bent, m).Count? && LongitudinalCount(bent).Count?
  {
    var fit := FitOf(bent, m);
    && |mesh.cross| == CrossCount(bent, m).n && |mesh.longitudinal| == LongitudinalCount(bent).n
    && (forall k: nat :: k < |mesh.cross| ==> mesh.cross[k] == CrossBar(bent, m, fit.shape, CrossDistance(bent, k)))
    && forall k: nat :: k < |mesh.longitudinal| ==> IsBarOf(bent, m, fit, k, mesh.longitudinal[k])
  }

  /** In both directions the last bar is the last that fits. */
  ghost predicate Fills(bent: Bent, m: Measures, mesh: Centerlines)
    requires |bent.stored| >= 6
  {
    var span := Vec(bent.stored[3] - bent.stored[0], bent.stored[4] - bent.stored[1], bent.stored[5] - bent.stored[2]);
    && bent.crossSpacing > 0.0 && bent.longitudinalSpacing > 0.0
    && FillUp(|mesh.cross|, bent.longitudinalOverhang, m.length(span), bent.crossSpacing)
    && FillUp(|mesh.longitudinal|, bent.crossOverhang, bent.width, bent.longitudinalSpacing)
  }

  lemma MeshFills(bent: Bent, m: Measures, mesh: Centerlines)
    requires IsPlaceable(bent, m) && CrossCount(bent, m).Count? && LongitudinalCount(bent).Count?
    requires IsMesh(bent, m, mesh)
    ensures Fills(bent, m, mesh)
  {
    hide IsSound, Adjustment, RegularCount, WalkAt, CrossBar, IsBarOf, FillUp;
    CountFillsUp(bent.longitudinalOverhang, m.length(Span(bent.stored)), bent.crossSpacing);
    CountFillsUp(bent.crossOverhang, bent.width, bent.longitudinalSpacing);
  }

  ghost predicate IsBarOf(bent: Bent, m: Measures, fit: Fit, k: nat, bar: seq<Vec>)
    requires IsPlaceable(bent, m)
  {
    WalkAt(bent, m, fit, k).Some? && bar == LongitudinalBar(bent, TurnSign(bent, m), WalkAt(bent, m, fit, k).value)
  }

  ghost predicate AllOfSize(curves: seq<seq<Vec>>, points: nat) {
    forall k :: 0 <= k < |curves| ==> |curves[k]| == points
  }

  lemma MeshSizes(bent: Bent, m: Measures, mesh: Centerlines)
    requires IsPlaceable(bent, m) && CrossCount(bent, m).Count? && LongitudinalCount(bent).Count?
    requires IsMesh(bent, m, mesh)
    ensures AllOfSize(mesh.cross, |bent.polygon|) && AllOfSize(mesh.longitudinal, 2)
  {
    hide CrossBar, LongitudinalBar, IsSound, Adjustment, RegularCount, OffsetShape, CanOffset, WalkAt;
    AdjustmentIsBracketed(bent, m);
    forall k: nat | k < |mesh.longitudinal| ensures |mesh.longitudinal[k]| == 2 {
      assert IsBarOf(bent, m, FitOf(bent, m), k, mesh.longitudinal[k]);
    }
  }

  /** Evaluates a mesh, exactly when its bars have places within the limit. */
  method EvaluateBent(bent: Bent, m: Measures, maximum: nat) returns (result: Evaluation)
    ensures result.Evaluated? <==> IsEvaluable(bent, m, maximum)
    ensures result.Evaluated? ==> IsMesh(bent, m, result.mesh) && Fills(bent, m, result.mesh)
  {
    hide RegularCount, HasLongLegs, TurnSign, StoredOffsets, Adjustment, FitFor;
    hide CrossBar, LongitudinalBar, Span, WalkAt, Fills, IsMesh;
    if |bent.polygon| < 2 { return Refused(InvalidGeometry); }
    var geometry := NormalizeGeometry(bent);
    if |geometry| != 9 + 3 * Legs(bent) || bent.width <= 0.0 || bent.bendRadius < 0.0 {
      return Refused(InvalidGeometry);
    }
    GeometryStarts(bent);
    var directions := BentDirections(bent, m);
    if directions.None? { return Refused(InvalidGeometry); }
    SoundLegsAreLong(bent, m);
    var sign := FindTurnSign(bent, m, directions.value);
    var offsets := ReadOffsets(bent, geometry);
    var fit := Adjust(bent, m, offsets, sign);
    if fit.None? {
      NotPlaceable(bent, m);
      return Refused(InvalidGeometry);
    }
    result := PlaceBars(bent, m, sign, fit.value, maximum);
    if result.Evaluated? { MeshFills(bent, m, result.mesh); }
  }

  lemma NotPlaceable(bent: Bent, m: Measures)
    requires IsSound(bent, m)
    requires Adjustment(bent, m).None? || FitFor(bent, m, Adjustment(bent, m).value).None?
    ensures !IsPlaceable(bent, m)
  {
    hide IsSound, FitFor, Adjustment;
    if Adjustment(bent, m).Some? { AdjustmentIsBracketed(bent, m); }
  }

  method BentDirections(bent: Bent, m: Measures) returns (directions: Option<seq<Direction>>)
    requires |bent.polygon| >= 2
    ensures directions.Some? <==> HasLongLegs(bent, m)
    ensures directions.Some? ==>
              LegsAreLong(bent.polygon, m.hypot) && directions.value == Directions(bent.polygon, m.hypot)
  {
    hide LegLength, LegDirection;
    var list: seq<Direction> := [];
    for k := 0 to |bent.polygon| - 1
      invariant |list| == k
      invariant forall j: nat :: j < k ==>
        LegLength(bent.polygon, j, m.hypot) > SHORTEST_BENT_LEG && list[j] == LegDirection(bent.polygon, j, m.hypot)
    {
      if LegLength(bent.polygon, k, m.hypot) <= SHORTEST_BENT_LEG { return None; }
      list := list + [LegDirection(bent.polygon, k, m.hypot)];
    }
    return Some(list);
  }

  method ReadOffsets(bent: Bent, geometry: seq<real>) returns (offsets: seq<real>)
    requires IsConsistent(bent) && geometry == Geometry(bent)
    ensures offsets == StoredOffsets(bent)
  {
    hide Geometry;
    offsets := [];
    for i := 0 to Legs(bent)
      invariant offsets == StoredOffsets(bent)[..i]
    {
      offsets := offsets + [(geometry[6 + 3 * i] + geometry[7 + 3 * i]) / 2.0];
    }
  }

  lemma BarMissing(bent: Bent, m: Measures, fit: Fit, k: nat, maximum: nat)
    requires IsPlaceable(bent, m) && FitOf(bent, m) == fit && WalkAt(bent, m, fit, k).None?
    requires LongitudinalCount(bent).Count? && k < LongitudinalCount(bent).n
    ensures !IsEvaluable(bent, m, maximum)
  {
    hide IsPlaceable, FitOf, WalkAt, LongitudinalCount, CrossCount;
  }

  method PlaceBars(bent: Bent, m: Measures, sign: real, fit: Fit, maximum: nat) returns (result: Evaluation)
    requires IsSound(bent, m) && |bent.stored| >= 6 && bent.polygon != []
    requires Adjustment(bent, m).Some? && sign == TurnSign(bent, m)
    requires FitFor(bent, m, Adjustment(bent, m).value) == Some(fit)
    ensures result.Evaluated? <==> IsEvaluable(bent, m, maximum)
    ensures result.Evaluated? ==> IsMesh(bent, m, result.mesh)
  {
    hide RegularCount, IsSound, TurnSign, Adjustment, FitFor, CrossBar, LongitudinalBar, Span, FillUp,
      DistanceAt;
    var length := m.length(Span(bent.stored));
    if length <= SHORTEST_SPAN { return Refused(InvalidGeometry); }
    var crossDistances := RegularDistances(bent.longitudinalOverhang, length, bent.crossSpacing, maximum);
    if crossDistances.Unspaced? { return Refused(crossDistances.error); }
    assert FitOf(bent, m) == fit;
    var remaining := maximum - |crossDistances.values|;
    var longDistances := RegularDistances(bent.crossOverhang, bent.width, bent.longitudinalSpacing, remaining);
    if longDistances.Unspaced? { return Refused(longDistances.error); }
    var cross: seq<seq<Vec>> := [];
    for k := 0 to |crossDistances.values|
      invariant |cross| == k
      invariant forall j: nat :: j < k ==> cross[j] == CrossBar(bent, m, fit.shape, CrossDistance(bent, j))
    {
      cross := cross + [CrossBar(bent, m, fit.shape, crossDistances.values[k])];
    }
    var longitudinal: seq<seq<Vec>> := [];
    for k := 0 to |longDistances.values|
      invariant |longitudinal| == k
      invariant forall j: nat :: j < k ==> IsBarOf(bent, m, fit, j, longitudinal[j])
    {
      var sample := m.walk(fit.shape, fit.path, longDistances.values[k]);
      assert sample == WalkAt(bent, m, fit, k);
      if sample.None? {
        BarMissing(bent, m, fit, k, maximum);
        return Refused(InvalidGeometry);
      }
      longitudinal := longitudinal + [LongitudinalBar(bent, sign, sample.value)];
    }
    forall k: nat | k < LongitudinalCount(bent).n ensures WalkAt(bent, m, fit, k).Some? {
      assert IsBarOf(bent, m, fit, k, longitudinal[k]);
    }
    return Evaluated(Centerlines(cross, longitudinal));
  }

  // ----- Admission -----

  datatype Outcome = Retained(mesh: Centerlines) | Rejected(error: Error) | Overrun

  function PredictedSets(bent: Bent, m: Measures): seq<CurveSet>
    requires |bent.stored| >= 6 && CrossCount(bent, m).Count? && LongitudinalCount(bent).Count?
  {
    [CurveSet(CrossCount(bent, m).n, |bent.polygon|), CurveSet(LongitudinalCount(bent).n, 2)]
  }

  /** The bytes the predicted curves retain. */
  ghost function PredictedBytes(budget: RetainedBudget, bent: Bent, m: Measures): nat
    requires |bent.stored| >= 6 && CrossCount(bent, m).Count? && LongitudinalCount(bent).Count?
  {
    CrossCount(bent, m).n * (budget.curveRecord + |bent.polygon| * VECTOR_BYTES)
    + LongitudinalCount(bent).n * (budget.curveRecord + 2 * VECTOR_BYTES)
  }

  /** The predicted curves are within the limit of curves and the budget. */
  ghost predicate IsAdmissible(budget: RetainedBudget, bent: Bent, m: Measures, room: nat)
    reads budget
    requires budget.Valid()
  {
    && |bent.stored| >= 6 && CrossCount(bent, m).Count? && LongitudinalCount(bent).Count?
    && CrossCount(bent, m).n + LongitudinalCount(bent).n <= SIZE_MAX
    && CrossCount(bent, m).n + LongitudinalCount(bent).n <= room
    && budget.SizesFit(PredictedSets(bent, m)) && budget.used + PredictedBytes(budget, bent, m) <= budget.limit
  }

  /**
   Admits a bent mesh on its predicted counts, evaluates it and retains its curves one by
   one, exactly when it is admissible and can be evaluated. Retaining an admitted mesh never
   runs over the budget.
   */
  method RetainBent(budget: RetainedBudget, bent: Bent, m: Measures, expanded: nat, maximumExpanded: nat)
    returns (outcome: Outcome, total: nat)
    requires budget.Valid() && expanded <= maximumExpanded
    modifies budget
    ensures budget.Valid() && total <= maximumExpanded
    ensures !outcome.Overrun?
    ensures outcome.Retained? <==>
              && old(IsAdmissible(budget, bent, m, maximumExpanded - expanded))
              && IsEvaluable(bent, m, CrossCount(bent, m).n + LongitudinalCount(bent).n)
    ensures outcome.Retained? ==> IsMesh(bent, m, outcome.mesh) && Fills(bent, m, outcome.mesh)
    ensures outcome.Retained? ==> budget.used == old(budget.used) + PredictedBytes(budget, bent, m)
    ensures outcome.Retained? ==> total == expanded + |outcome.mesh.cross| + |outcome.mesh.longitudinal|
    ensures !outcome.Retained? ==> budget.used == old(budget.used) && total == expanded
  {
    hide RegularCount, IsPlaceable, Span, WalkAt, CrossBar, IsBarOf, Fills, budget.SizesFit;
    if |bent.stored| < 6 { return Rejected(InvalidGeometry), expanded; }
    var crossCount, longCount := CrossCount(bent, m), LongitudinalCount(bent);
    if crossCount.Uncounted? { return Rejected(crossCount.error), expanded; }
    if longCount.Uncounted? { return Rejected(longCount.error), expanded; }
    if longCount.n > SIZE_MAX - crossCount.n { return Rejected(ResourceLimit), expanded; }
    var required := crossCount.n + longCount.n;
    var sets := [CurveSet(crossCount.n, |bent.polygon|), CurveSet(longCount.n, 2)];
    var fits := budget.CanConsumeCurveSets(sets);
    TwoSets(budget, sets);
    if required > maximumExpanded - expanded || !fits { return Rejected(ResourceLimit), expanded; }
    var evaluated := EvaluateBent(bent, m, required);
    if evaluated.Refused? { return Rejected(evaluated.error), expanded; }
    var mesh := evaluated.mesh;
    MeshSizes(bent, m, mesh);
    var consumed := ConsumeAll(budget, mesh.cross, |bent.polygon|,
                               longCount.n * (budget.curveRecord + 2 * VECTOR_BYTES));
    var also := ConsumeAll(budget, mesh.longitudinal, 2, 0);
    if !consumed || !also { return Overrun, expanded; }
    return Retained(mesh), expanded + |mesh.cross| + |mesh.longitudinal|;
  }

  lemma TwoSets(budget: RetainedBudget, sets: seq<CurveSet>)
    requires |sets| == 2
    ensures budget.SetsBytes(sets) == sets[0].curves * (budget.curveRecord + sets[0].points * VECTOR_BYTES)
                                      + sets[1].curves * (budget.curveRecord + sets[1].points * VECTOR_BYTES)
  {
    assert sets[..1] == [sets[0]];
    assert budget.SetsBytes([sets[0]]) == sets[0].curves * (budget.curveRecord + sets[0].points * VECTOR_BYTES) by {
      assert [sets[0]][..0] == [];
    }
  }

  /** Consumes every curve, leaving room for what comes after. */
  method ConsumeAll(budget: RetainedBudget, curves: seq<seq<Vec>>, points: nat, after: nat) returns (consumed: bool)
    requires budget.Valid() && AllOfSize(curves, points)
    requires |curves| * (budget.curveRecord + points * VECTOR_BYTES) + after <= budget.Remaining()
    modifies budget
    ensures budget.Valid() && consumed
    ensures budget.used == old(budget.used) + |curves| * (budget.curveRecord + points * VECTOR_BYTES)
  {
    consumed := true;
    ghost var each := budget.curveRecord + points * VECTOR_BYTES;
    for k := 0 to |curves|
      invariant budget.Valid() && consumed && budget.used == old(budget.used) + k * each
    {
      Monotone(k + 1, |curves|, each);
      assert (k + 1) * each == k * each + each;
      var ok := budget.ConsumeCurve(|curves[k]|);
      consumed := consumed && ok;
    }
  }
}
