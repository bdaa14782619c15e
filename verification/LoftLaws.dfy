/**
 Lofted plates told in lengths and directions: where along its rail every point lies, which
 parameters are met, and to which side the plate is thickened.
 */
module LoftLaws {
  import opened LoftPlates
  import opened LoftRails
  import SweepCoordinates
  import opened Vectors
  import opened Wrappers

  // ----- Lengths along a rail -----

  /** The length of the rail up to a point on the leg that ends at point `k`, `fraction` of the way. */
  ghost function Reached(rail: seq<Vec>, k: nat, fraction: real, length: Length): real
    requires 1 <= k < |rail|
  {
    Along(rail, k - 1, length) + Mul(fraction, length(Subtract(rail[k], rail[k - 1])))
  }

  lemma {:induction false} AlongRises(rail: seq<Vec>, i: nat, k: nat, length: Length)
    requires IsTrue(length) && i <= k < |rail|
    ensures 0.0 <= Along(rail, i, length) <= Along(rail, k, length)
    decreases k, i
  {
    hide Subtract;
    if i < k {
      AlongRises(rail, i, k - 1, length);
      assert length(Subtract(rail[k], rail[k - 1])) >= 0.0;
    } else if k > 0 {
      AlongRises(rail, k - 1, k - 1, length);
      assert length(Subtract(rail[k], rail[k - 1])) >= 0.0;
    }
  }

  ghost function Whole(rail: seq<Vec>, length: Length): real
    requires rail != []
  {
    Along(rail, |rail| - 1, length)
  }

  lemma ShareTimesWhole(rail: seq<Vec>, length: Length, k: nat)
    requires IsRail(rail, length) && k < |rail|
    ensures Mul(Shares(rail, length)[k], Whole(rail, length)) == Along(rail, k, length)
  {
    hide Share, Along;
  }

  /**
   The point lies on the leg that ends at point `k`, or past its end by no more than the
   tolerance, and the rail up to it has the parameter's share of the whole length.
   */
  ghost predicate IsAt(rail: seq<Vec>, length: Length, parameter: real, point: Vec, k: nat, fraction: real)
    requires 1 <= k < |rail|
  {
    var whole, reached := Whole(rail, length), Reached(rail, k, fraction, length);
    && point == Add(rail[k - 1], Scale(Subtract(rail[k], rail[k - 1]), fraction))
    && fraction >= 0.0 && reached <= Along(rail, k, length) + Mul(0.000000000001, whole)
    && Mul(parameter - 0.000000000002, whole) <= reached <= Mul(parameter + 0.000000000002, whole)
  }

  lemma {:induction false} SampledFrom(rail: seq<Vec>, length: Length, parameter: real, k: nat)
    returns (leg: nat, fraction: real)
    requires IsTrue(length) && IsRail(rail, length) && 1 <= k < |rail| && parameter <= 1.0
    requires parameter > Shares(rail, length)[k - 1]
    ensures 1 <= leg < |rail|
    ensures IsAt(rail, length, parameter, SampleFrom(rail, Shares(rail, length), parameter, k), leg, fraction)
    decreases |rail| - k
  {
    hide Shares, IsRail, IsTrue, Add, Scale, Subtract, Along, IsAt;
    var shares := Shares(rail, length);
    if parameter > shares[k] + TOUCH {
      SharesSpan(rail, length);
      leg, fraction := SampledFrom(rail, length, parameter, k + 1);
    } else {
      leg := k;
      var span := shares[k] - shares[k - 1];
      fraction := if span <= TOUCH then 0.0 else (parameter - shares[k - 1]) / span;
      SampledOn(rail, length, parameter, k, fraction);
    }
  }

  lemma SampledOn(rail: seq<Vec>, length: Length, parameter: real, k: nat, fraction: real)
    requires IsTrue(length) && IsRail(rail, length) && 1 <= k < |rail|
    requires Shares(rail, length)[k - 1] < parameter <= Shares(rail, length)[k] + TOUCH
    requires var span := Shares(rail, length)[k] - Shares(rail, length)[k - 1];
             fraction == if span <= TOUCH then 0.0 else (parameter - Shares(rail, length)[k - 1]) / span
    ensures var point := Add(rail[k - 1], Scale(Subtract(rail[k], rail[k - 1]), fraction));
            IsAt(rail, length, parameter, point, k, fraction)
  {
    hide Shares, Add, Scale, Subtract, Mul;
    var shares, whole := Shares(rail, length), Whole(rail, length);
    ShareTimesWhole(rail, length, k - 1);
    ShareTimesWhole(rail, length, k);
    AlongRises(rail, k - 1, k, length);
    ReachedReals(shares[k - 1], shares[k], parameter, fraction, whole, length(Subtract(rail[k], rail[k - 1])));
  }

  lemma ReachedReals(from: real, onto: real, parameter: real, fraction: real, whole: real, leg: real)
    requires whole > 0.0 && leg >= 0.0 && Mul(onto, whole) == Mul(from, whole) + leg
    requires from < parameter <= onto + TOUCH
    requires fraction == if onto - from <= TOUCH then 0.0 else (parameter - from) / (onto - from)
    ensures fraction >= 0.0
    ensures Mul(from, whole) + Mul(fraction, leg) <= Mul(onto, whole) + Mul(TOUCH, whole)
    ensures Mul(parameter - 2.0 * TOUCH, whole) <= Mul(from, whole) + Mul(fraction, leg)
    ensures Mul(from, whole) + Mul(fraction, leg) <= Mul(parameter + 2.0 * TOUCH, whole)
  {
    var span := onto - from;
    assert leg == Mul(span, whole);
    if span <= TOUCH {
      assert Mul(fraction, leg) == 0.0;
      hide Mul;
      Under(from, onto + TOUCH, whole);
      Under(parameter - 2.0 * TOUCH, from, whole);
      Under(from, parameter + 2.0 * TOUCH, whole);
      MulOver(onto, TOUCH, whole);
      SpanIsRise(from, onto, whole);
    } else {
      FractionOfSpan(fraction, span, parameter - from, whole, leg);
      hide Mul;
      MulOver(from, parameter - from, whole);
      Under(parameter, onto + TOUCH, whole);
      Under(parameter - 2.0 * TOUCH, parameter, whole);
      Under(parameter, parameter + 2.0 * TOUCH, whole);
      MulOver(onto, TOUCH, whole);
    }
  }

  lemma SpanIsRise(from: real, onto: real, whole: real)
    requires whole > 0.0 && Mul(from, whole) <= Mul(onto, whole)
    ensures from <= onto
  {
    if onto < from { MulPositive(from - onto, whole); }
    assert Mul(from - onto, whole) == Mul(from, whole) - Mul(onto, whole);
  }

  lemma Under(a: real, b: real, s: real)
    requires s > 0.0
    ensures a <= b ==> Mul(a, s) <= Mul(b, s)
  {
    if a < b { MulPositive(b - a, s); }
    assert Mul(b - a, s) == Mul(b, s) - Mul(a, s);
  }

  lemma FractionOfSpan(fraction: real, span: real, part: real, whole: real, leg: real)
    requires span > 0.0 && part > 0.0 && fraction == part / span && leg == Mul(span, whole)
    ensures fraction >= 0.0 && Mul(fraction, leg) == Mul(part, whole)
  {
    assert fraction * span == part;
    assert fraction >= 0.0 by {
      if fraction < 0.0 { MulPositive(-fraction, span); }
    }
    assert fraction * (span * whole) == (fraction * span) * whole;
  }

  /** Every sampled point lies on its rail where the parameter's share of the rail's length ends. */
  lemma SampleIsAtParameter(rail: seq<Vec>, length: Length, parameter: real)
    requires IsTrue(length) && IsRail(rail, length) && parameter <= 1.0
    ensures var point := SampleAt(rail, Shares(rail, length), parameter);
            if parameter <= 0.0 then point == rail[0]
            else exists k: nat, fraction: real :: 1 <= k < |rail| && IsAt(rail, length, parameter, point, k, fraction)
  {
    hide Shares, IsAt, SampleFrom, IsRail, IsTrue;
    if parameter > 0.0 {
      SharesSpan(rail, length);
      assert |rail| >= 2 by { RailHasLegs(rail, length); }
      var k, fraction := SampledFrom(rail, length, parameter, 1);
      assert IsAt(rail, length, parameter, SampleAt(rail, Shares(rail, length), parameter), k, fraction);
    }
  }

  lemma RailHasLegs(rail: seq<Vec>, length: Length)
    requires IsRail(rail, length)
    ensures |rail| >= 2
  {
  }

  // ----- The parameters -----

  ghost predicate Covers(kept: seq<real>, value: real) {
    exists j :: 0 <= j < |kept| && kept[j] <= value <= kept[j] + 0.0000000001
  }

  /** Every value has a kept one at or closely below it. */
  lemma {:induction false} ThinnedCovers(values: seq<real>, i: nat)
    requires IsSorted(values) && i < |values|
    ensures Covers(Thinned(values), values[i])
  {
    hide IsSpread;
    var last := |values| - 1;
    ThinnedIsSpread(values);
    if i < last {
      hide Thinned;
      ThinnedCovers(values[..last], i);
      ThinnedGrows(values);
      CoversMore(Thinned(values[..last]), Thinned(values), values[i]);
    }
  }

  lemma ThinnedGrows(values: seq<real>)
    requires |values| > 1
    ensures Thinned(values[..|values| - 1]) <= Thinned(values)
  {
  }

  lemma CoversMore(kept: seq<real>, more: seq<real>, value: real)
    requires kept <= more && Covers(kept, value)
    ensures Covers(more, value)
  {
  }

  lemma {:induction false} ThinnedIsPart(values: seq<real>, j: nat)
    requires j < |Thinned(values)|
    ensures Thinned(values)[j] in values
  {
    if |values| > 1 {
      var n := |values| - 1;
      var before := Thinned(values[..n]);
      if j < |before| {
        ThinnedIsPart(values[..n], j);
        assert values == values[..n] + [values[n]];
      }
    }
  }

  /**
   The rails are paired only at the shares of their own points, and every point of either rail
   is met at or closely behind a parameter.
   */
  lemma ParametersAreShares(first: seq<Vec>, second: seq<Vec>, length: Length, j: nat, own: seq<Vec>, i: nat)
    requires IsRail(first, length) && IsRail(second, length)
    requires (own == first || own == second) && i < |own| && j < |Parameters(first, second, length)|
    ensures Parameters(first, second, length)[j] in Shares(first, length) + Shares(second, length)
    ensures Covers(Parameters(first, second, length), Shares(own, length)[i])
  {
    hide Shares, Sorted, Thinned, IsRail;
    var values := Shares(first, length) + Shares(second, length);
    var sorted := Sorted(values);
    SortedIsPermutation(values);
    ThinnedIsPart(sorted, j);
    assert Thinned(sorted)[j] in multiset(sorted);
    var share := Shares(own, length)[i];
    assert share == values[if own == first then i else |first| + i];
    assert share in multiset(values) && share in sorted;
    var at :| 0 <= at < |sorted| && sorted[at] == share;
    ThinnedCovers(sorted, at);
  }

  // ----- The thickness -----

  lemma UnitCross(tangent: Vec, rung: Vec, half: real, length: Length)
    requires IsTrue(length) && UnitOf(Cross(tangent, rung), length).Some? && half > 0.0
    ensures var offset := Scale(UnitOf(Cross(tangent, rung), length).value, half);
            Dot(offset, tangent) == 0.0 && Dot(offset, Cross(tangent, rung)) > 0.0
  {
    hide IsTrue, UnitOf, Cross, Dot, Scale, Mul;
    var normal, product := UnitOf(Cross(tangent, rung), length).value, Cross(tangent, rung);
    CrossIsAcross(tangent, rung);
    UnitIsUnit(product, length);
    UnitAcross(product, tangent, length);
    ScaledAcross(normal, tangent, half);
    SweepCoordinates.UnitPointsAlong(product, length);
    SweepCoordinates.ScaledDot(normal, length(product), Scale(normal, half));
    SweepCoordinates.ScaledDot(normal, half, normal);
    SweepCoordinates.SumDot(Scale(normal, half), Scale(normal, half), product);
    SweepCoordinates.TimesOne(half);
    MulPositive(length(product), half);
  }

  /** Twice the middle of the rung at a station. */
  ghost function Rungs(stations: seq<LoftStation>, k: nat): Vec
    requires k < |stations|
  {
    Add(stations[k].first, stations[k].second)
  }

  lemma DoubledTangent(a: Vec, b: Vec, c: Vec, d: Vec, offset: Vec, rung: Vec)
    requires var tangent := Subtract(Scale(Add(c, d), 0.5), Scale(Add(a, b), 0.5));
             Dot(offset, tangent) == 0.0 && Dot(offset, Cross(tangent, rung)) > 0.0
    ensures var way := Subtract(Add(c, d), Add(a, b));
            Dot(offset, way) == 0.0 && Dot(offset, Cross(way, rung)) > 0.0
  {
    hide Dot, Cross;
    var tangent := Subtract(Scale(Add(c, d), 0.5), Scale(Add(a, b), 0.5));
    var way := Subtract(Add(c, d), Add(a, b));
    assert way == Scale(tangent, 2.0);
    SweepCoordinates.ScaledDot(tangent, 2.0, offset);
    assert Dot(offset, way) == Mul(2.0, Dot(tangent, offset));
    CrossTwice(tangent, rung);
    SweepCoordinates.ScaledDot(Cross(tangent, rung), 2.0, offset);
    SweepCoordinates.SumDot(tangent, tangent, offset);
    SweepCoordinates.SumDot(Cross(tangent, rung), tangent, offset);
  }

  lemma CrossTwice(a: Vec, b: Vec)
    ensures Cross(Scale(a, 2.0), b) == Scale(Cross(a, b), 2.0)
  {
  }

  /**
   At every station the plate is thickened across the way from the rung before to the rung
   after (or its own, at the ends), on the side that makes way, rung and offset right-handed.
   */
  lemma PlateIsThickened(first: seq<Vec>, second: seq<Vec>, thickness: real, length: Length, k: nat)
    requires IsTrue(length) && LoftStations(first, second, thickness, length).Some?
    requires k < |LoftStations(first, second, thickness, length).value|
    ensures var stations := LoftStations(first, second, thickness, length).value;
            var before, after := if k == 0 then 0 else k - 1, if k + 1 == |stations| then k else k + 1;
            var way, rung := Subtract(Rungs(stations, after), Rungs(stations, before)),
                             Subtract(stations[k].second, stations[k].first);
            && Dot(stations[k].offset, way) == 0.0 && Dot(stations[k].offset, Cross(way, rung)) > 0.0
  {
    hide IsTrue, UnitOf, Cross, Dot, Scale, Subtract, Add, LoftStations, Parameters, Paired;
    ThicknessIsPositive(first, second, thickness, length);
    var stations := LoftStations(first, second, thickness, length).value;
    var before, after := if k == 0 then 0 else k - 1, if k + 1 == |stations| then k else k + 1;
    var a, b := Paired(first, second, first, length), Paired(first, second, second, length);
    StationIsPair(first, second, thickness, length, k);
    StationIsPair(first, second, thickness, length, before);
    StationIsPair(first, second, thickness, length, after);
    var rung := Subtract(b[k], a[k]);
    UnitCross(PairTangent(a, b, k), rung, thickness / 2.0, length);
    DoubledTangent(a[before], b[before], a[after], b[after], stations[k].offset, rung);
  }

  lemma ThicknessIsPositive(first: seq<Vec>, second: seq<Vec>, thickness: real, length: Length)
    requires LoftStations(first, second, thickness, length).Some?
    ensures thickness > 0.0
    ensures IsRail(first, length) && IsRail(second, length)
    ensures |LoftStations(first, second, thickness, length).value| == |Paired(first, second, first, length)| >= 2
  {
    hide IsRail, Paired, PairNormal, Scale, Parameters;
    ParametersSpan(first, second, length);
  }

  /** The way from the middle of the rung before to the middle of the rung after; its own at the ends. */
  function WayAlong(first: seq<Vec>, second: seq<Vec>, k: nat): Vec
    requires k < |first| == |second|
  {
    var before, after := if k == 0 then 0 else k - 1, if k + 1 == |first| then k else k + 1;
    Subtract(Scale(Add(first[after], second[after]), 0.5), Scale(Add(first[before], second[before]), 0.5))
  }

  /**
   A plate of positive thickness between two rails is refused exactly where the way along the
   paired points and a rung span no more than the shortest length with a direction.
   */
  lemma RefusedPlatesAreFlat(first: seq<Vec>, second: seq<Vec>, thickness: real, length: Length)
    requires thickness > 0.0 && IsRail(first, length) && IsRail(second, length)
    ensures var a, b := Paired(first, second, first, length), Paired(first, second, second, length);
      && |a| == |b| >= 2
      && (LoftStations(first, second, thickness, length).None? <==>
            exists k: nat :: k < |a| && IsFlatAt(a, b, k, length))
  {
    hide Paired, Pairs, Parameters, PairNormal, IsRail, IsFlatAt;
    ParametersSpan(first, second, length);
    var a, b := Paired(first, second, first, length), Paired(first, second, second, length);
    forall k: nat | k < |a| ensures PairNormal(a, b, k, length).None? <==> IsFlatAt(a, b, k, length) {
      FlatHasNoNormal(a, b, k, length);
    }
  }

  predicate IsFlatAt(a: seq<Vec>, b: seq<Vec>, k: nat, length: Length)
    requires k < |a| == |b|
  {
    length(Cross(WayAlong(a, b, k), Subtract(b[k], a[k]))) <= 0.000000000001
  }

  lemma FlatHasNoNormal(a: seq<Vec>, b: seq<Vec>, k: nat, length: Length)
    requires 2 <= |a| == |b| && k < |a|
    ensures PairNormal(a, b, k, length).None? <==> IsFlatAt(a, b, k, length)
  {
    hide Cross, Subtract, Scale, Add, Share;
  }
}
