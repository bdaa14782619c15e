/** Where the bars of an evaluated bent mesh run. */
module BentMeshLaws {
  import opened BentMeshes
  import opened PolylineOffsets
  import opened Vectors
  import opened Wrappers

  // ----- The shape of the cross bars -----

  lemma {:induction false} RepeatedAt(values: seq<real>, n: nat, i: nat, j: nat)
    requires i < n && |values| == 3 && j < 3
    ensures 3 * i + j < |Repeated(values, n)| && Repeated(values, n)[3 * i + j] == values[j]
  {
    if i + 1 < n { RepeatedAt(values, n - 1, i, j); }
  }

  /** The middle of the two stored distances of a leg; a short array holds one pair for all legs. */
  function StoredMiddle(bent: Bent, i: nat): real
    requires |bent.stored| >= 8 && ((|bent.stored| == 12 && |bent.polygon| > 2) || 7 + 3 * i < |bent.stored|)
  {
    if |bent.stored| == 12 && |bent.polygon| > 2 then (bent.stored[6] + bent.stored[7]) / 2.0
    else (bent.stored[6 + 3 * i] + bent.stored[7 + 3 * i]) / 2.0
  }

  lemma StoredMiddles(bent: Bent, i: nat)
    requires IsConsistent(bent) && i + 1 < |bent.polygon|
    ensures |bent.stored| >= 8 && ((|bent.stored| == 12 && |bent.polygon| > 2) || 7 + 3 * i < |bent.stored|)
    ensures StoredOffsets(bent)[i] == StoredMiddle(bent, i)
  {
    hide Repeated;
    if |bent.stored| == 12 && Legs(bent) > 1 {
      var shared := bent.stored[6..9];
      RepeatedAt(shared, Legs(bent), i, 0);
      RepeatedAt(shared, Legs(bent), i, 1);
      assert Geometry(bent)[6 + 3 * i] == Repeated(shared, Legs(bent))[3 * i];
      assert Geometry(bent)[7 + 3 * i] == Repeated(shared, Legs(bent))[3 * i + 1];
    }
  }

  /**
   The cross bars have the shape of the polygon with every leg moved to the middle of its
   stored distances less the adjustment, towards the side the polygon turns to.
   */
  lemma ShapeOfCrossBars(bent: Bent, m: Measures, i: nat)
    requires IsPlaceable(bent, m) && i + 1 < |bent.polygon|
    ensures |bent.stored| >= 8 && ((|bent.stored| == 12 && |bent.polygon| > 2) || 7 + 3 * i < |bent.stored|)
    ensures var offsets := AdjustedOffsets(StoredOffsets(bent), TurnSign(bent, m), Adjustment(bent, m).value);
      && CanOffset(bent.polygon, offsets, m.hypot)
      && FitOf(bent, m).shape == OffsetShape(bent.polygon, offsets, 0.0, 0.0, m.hypot)
      && (TurnSign(bent, m) == 1.0 || TurnSign(bent, m) == -1.0)
      && offsets[i] == TurnSign(bent, m) * (StoredMiddle(bent, i) - Adjustment(bent, m).value)
  {
    hide IsSound, CanOffset, OffsetShape, Adjustment, StoredOffsets, StoredMiddle;
    AdjustmentIsBracketed(bent, m);
    assert IsConsistent(bent) by { SoundIsConsistent(bent, m); }
    StoredMiddles(bent, i);
    assert TurnSign(bent, m) == 1.0 || TurnSign(bent, m) == -1.0 by { SignIsUnit(bent, m); }
  }

  lemma SoundIsConsistent(bent: Bent, m: Measures)
    requires IsSound(bent, m)
    ensures IsConsistent(bent)
  {
  }

  lemma SignIsUnit(bent: Bent, m: Measures)
    requires IsSound(bent, m)
    ensures TurnSign(bent, m) == 1.0 || TurnSign(bent, m) == -1.0
  {
    hide IsSound;
  }

  // ----- The bars -----

  /** The line the bars are distributed along, from its stored start to its stored end. */
  function Line(bent: Bent): Vec
    requires |bent.stored| >= 6
  {
    Vec(bent.stored[3] - bent.stored[0], bent.stored[4] - bent.stored[1], bent.stored[5] - bent.stored[2])
  }

  /** How much the bars are raised from the polygon. */
  function Rise(bent: Bent): real
    requires |bent.stored| >= 6 && bent.polygon != []
  {
    bent.stored[2] - bent.polygon[0].z
  }

  /**
   Cross bar `k` is the shape moved along the line by the overhang and `k` spacings, measured
   against the length of the line, and raised from the polygon to the line's start.
   */
  lemma CrossBarInPlace(bent: Bent, m: Measures, mesh: Centerlines, k: nat, i: nat)
    requires IsPlaceable(bent, m) && CrossCount(bent, m).Count? && LongitudinalCount(bent).Count?
    requires IsMesh(bent, m, mesh) && k < |mesh.cross|
    ensures |mesh.cross[k]| == |FitOf(bent, m).shape| == |bent.polygon|
    ensures i < |bent.polygon| ==>
              var p, q, line := FitOf(bent, m).shape[i], mesh.cross[k][i], Line(bent);
              var distance, length := bent.longitudinalOverhang + (k as real) * bent.crossSpacing, m.length(line);
              && length > 0.0
              && Mul(q.x - p.x, length) == Mul(line.x, distance) && Mul(q.y - p.y, length) == Mul(line.y, distance)
              && Mul(q.z - p.z - Rise(bent), length) == Mul(line.z, distance)
  {
    hide IsSound, Adjustment, OffsetShape, CanOffset, RegularCount, StoredOffsets;
    AdjustmentIsBracketed(bent, m);
    var fit := FitOf(bent, m);
    if i < |bent.polygon| {
      assert mesh.cross[k] == CrossBar(bent, m, fit.shape, CrossDistance(bent, k));
      MovedInPlace(bent, m, fit.shape, CrossDistance(bent, k), i);
    }
  }

  lemma MovedInPlace(bent: Bent, m: Measures, shape: seq<Vec>, distance: real, i: nat)
    requires |bent.stored| >= 6 && bent.polygon != [] && m.length(Span(bent.stored)) > 0.0 && i < |shape|
    ensures var p, q, line := shape[i], CrossBar(bent, m, shape, distance)[i], Line(bent);
      && m.length(line) > 0.0
      && Mul(q.x - p.x, m.length(line)) == Mul(line.x, distance)
      && Mul(q.y - p.y, m.length(line)) == Mul(line.y, distance)
      && Mul(q.z - p.z - Rise(bent), m.length(line)) == Mul(line.z, distance)
  {
    hide Mul, Scale;
    var line, length := Line(bent), m.length(Line(bent));
    assert line == Span(bent.stored);
    var along := Scale(Scale(line, 1.0 / length), distance);
    ScaledAlong(line, length, distance);
    var start := VecAt(bent.stored, 0);
    var shift := Subtract(Add(start, along), Vec(start.x, start.y, bent.polygon[0].z));
    assert shift == Vec(along.x, along.y, along.z + Rise(bent));
    assert CrossBar(bent, m, shape, distance)[i] == Add(shape[i], shift);
  }

  lemma ScaledAlong(v: Vec, length: real, distance: real)
    requires length > 0.0
    ensures var along := Scale(Scale(v, 1.0 / length), distance);
      && Mul(along.x, length) == Mul(v.x, distance) && Mul(along.y, length) == Mul(v.y, distance)
      && Mul(along.z, length) == Mul(v.z, distance)
  {
    hide Mul;
    var unit := Scale(v, 1.0 / length);
    var along := Scale(unit, distance);
    AlongReals(v.x, length, distance, unit.x, along.x);
    AlongReals(v.y, length, distance, unit.y, along.y);
    AlongReals(v.z, length, distance, unit.z, along.z);
  }

  lemma AlongReals(a: real, length: real, distance: real, unit: real, along: real)
    requires length > 0.0 && unit == a * (1.0 / length) && along == unit * distance
    ensures Mul(along, length) == Mul(a, distance)
  {
    assert unit * length == a by { OverOne(a, length); }
    assert (unit * distance) * length == (unit * length) * distance;
  }

  lemma OverOne(a: real, length: real)
    requires length > 0.0
    ensures (a * (1.0 / length)) * length == a
  {
    assert (1.0 / length) * length == 1.0;
    assert (a * (1.0 / length)) * length == a * ((1.0 / length) * length);
  }

  /**
   Longitudinal bar `k` runs the length of the line from beside the point of the path at the
   overhang and `k` spacings: level with it but for the rise, straight across the path, and
   the two radii away on the side the polygon turns to.
   */
  lemma LongitudinalBarInPlace(bent: Bent, m: Measures, mesh: Centerlines, k: nat)
    requires IsPlaceable(bent, m) && CrossCount(bent, m).Count? && LongitudinalCount(bent).Count?
    requires IsMesh(bent, m, mesh) && k < |mesh.longitudinal|
    ensures |mesh.longitudinal[k]| == 2
    ensures var fit, bar := FitOf(bent, m), mesh.longitudinal[k];
      var sample := m.walk(fit.shape, fit.path, bent.crossOverhang + (k as real) * bent.longitudinalSpacing);
      && sample.Some?
      && var p, t := sample.value.point, sample.value.tangent;
         var x, y := bar[0].x - p.x, bar[0].y - p.y;
         && bar[1] == Add(bar[0], Line(bent)) && bar[0].z == p.z + Rise(bent)
         && Mul(t.dx, x) + Mul(t.dy, y) == 0.0
         && Mul(t.dx, y) - Mul(t.dy, x) == Mul(Mul(TurnSign(bent, m), bent.longitudinalRadius + bent.crossRadius),
                                               Mul(t.dx, t.dx) + Mul(t.dy, t.dy))
  {
    hide IsSound, Adjustment, OffsetShape, CanOffset, RegularCount, StoredOffsets, TurnSign, LongitudinalBar, Mul;
    AdjustmentIsBracketed(bent, m);
    SoundIsConsistent(bent, m);
    var fit := FitOf(bent, m);
    assert IsBarOf(bent, m, fit, k, mesh.longitudinal[k]);
    var sample := WalkAt(bent, m, fit, k).value;
    var distance := DistanceAt(bent.crossOverhang, k, bent.longitudinalSpacing);
    assert m.walk(fit.shape, fit.path, distance) == Some(sample);
    assert distance == bent.crossOverhang + (k as real) * bent.longitudinalSpacing;
    BesideThePath(bent, TurnSign(bent, m), sample);
  }

  lemma BesideThePath(bent: Bent, sign: real, sample: Sample)
    requires |bent.stored| >= 6 && bent.polygon != []
    ensures var bar, p, t := LongitudinalBar(bent, sign, sample), sample.point, sample.tangent;
      var x, y := bar[0].x - p.x, bar[0].y - p.y;
      && bar[1] == Add(bar[0], Line(bent)) && bar[0].z == p.z + Rise(bent)
      && Mul(t.dx, x) + Mul(t.dy, y) == 0.0
      && Mul(t.dx, y) - Mul(t.dy, x)
           == Mul(Mul(sign, bent.longitudinalRadius + bent.crossRadius), Mul(t.dx, t.dx) + Mul(t.dy, t.dy))
  {
    hide Mul;
    var t, s := sample.tangent, bent.longitudinalRadius + bent.crossRadius;
    var x, y := -t.dy * sign * s, t.dx * sign * s;
    var base, bar := FromBase(bent), LongitudinalBar(bent, sign, sample);
    assert base == Vec(0.0, 0.0, Rise(bent));
    assert bar[0] == Add(Vec(sample.point.x + x, sample.point.y + y, sample.point.z), base);
    assert bar[1] == Add(bar[0], Span(bent.stored)) && Span(bent.stored) == Line(bent);
    AcrossThePath(t.dx, t.dy, sign, s, x, y);
  }

  lemma AcrossThePath(a: real, b: real, sign: real, s: real, x: real, y: real)
    requires x == -b * sign * s
    requires y == a * sign * s
    ensures Mul(a, x) + Mul(b, y) == 0.0
    ensures Mul(a, y) - Mul(b, x) == Mul(Mul(sign, s), Mul(a, a) + Mul(b, b))
  {
    assert a * y == (sign * s) * (a * a);
    assert b * x == -((sign * s) * (b * b));
    assert a * x == -((sign * s) * (a * b));
    assert b * y == (sign * s) * (a * b);
  }
}
