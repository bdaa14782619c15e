/**
 Which operands an object takes, told from the persisted operations and from the vertices
 of the meshes alone.
 */
module OperandSelection {
  import opened OperationPlans
  import opened SweepTrim
  import opened Vectors
  import opened Wrappers

  // ----- Which operations bring an operand in -----

  /** Operation `k` is the first Boolean one with its target. */
  ghost predicate Introduces(operations: seq<Operation>, k: nat, target: Id) {
    && k < |operations| && operations[k].target == target && operations[k].kind in {11, 38, 39}
    && forall j :: 0 <= j < k && operations[j].target == target ==> operations[j].kind !in {11, 38, 39}
  }

  /** The first Boolean operation with the operand's target adds (or cuts), and its mesh is the operand's. */
  ghost predicate Stated(env: Environment, operations: seq<Operation>, operand: Operand, adds: bool) {
    && env.operative(operand.id, !adds) == Some(operand.mesh)
    && operand.mesh.mesh.positions != [] && operand.volume == env.volume(operand.mesh)
    && exists k: nat :: Introduces(operations, k, operand.id)
         && (adds <==> operations[k].kind == 38 || env.objectType(operand.id) == 38)
  }

  ghost predicate Known(operations: seq<Operation>, target: Id) {
    exists k: nat :: Introduces(operations, k, target)
  }

  lemma IntroducedBefore(operations: seq<Operation>, target: Id)
    requires operations != []
    ensures var n := |operations| - 1;
      && (forall k: nat :: k < n ==> (Introduces(operations, k, target) <==> Introduces(operations[..n], k, target)))
      && (Introduces(operations, n, target) <==>
            operations[n].target == target && operations[n].kind in {11, 38, 39} && !Known(operations[..n], target))
  {
    var n := |operations| - 1;
    if !Introduces(operations, n, target) && operations[n].target == target && operations[n].kind in {11, 38, 39} {
      FirstExists(operations[..n], target);
    }
  }

  lemma {:induction false} FirstExists(operations: seq<Operation>, target: Id)
    requires exists j :: 0 <= j < |operations| && operations[j].target == target && operations[j].kind in {11, 38, 39}
    ensures Known(operations, target)
  {
    var j :| 0 <= j < |operations| && operations[j].target == target && operations[j].kind in {11, 38, 39};
    if !Introduces(operations, j, target) {
      FirstExists(operations[..j], target);
      var k: nat :| Introduces(operations[..j], k, target);
      assert Introduces(operations, k, target);
    }
  }

  lemma StatedStep(env: Environment, operations: seq<Operation>, operand: Operand, adds: bool)
    requires operations != []
    ensures var n, target := |operations| - 1, operand.id;
      var front, last := operations[..n], operations[n];
      var introduced := last.target == target && IsBoolean(last) && !Known(front, target);
      && (Known(operations, target) <==> Known(front, target) || introduced)
      && (Stated(env, operations, operand, adds) <==>
            || Stated(env, front, operand, adds)
            || (introduced && (adds <==> IsAddition(env, last)) && env.operative(target, !adds) == Some(operand.mesh)
                && operand.mesh.mesh.positions != [] && operand.volume == env.volume(operand.mesh)))
  {
    IntroducedBefore(operations, operand.id);
  }

  lemma {:induction false} GatheredAreStated(env: Environment, host: Bounds, operations: seq<Operation>,
                                             operand: Operand)
    ensures var g := Gather(env, host, operations);
      && (operand.id in g.seen <==> Known(operations, operand.id))
      && (operand in g.additions <==> Stated(env, operations, operand, true))
      && (operand in g.cutters <==> Stated(env, operations, operand, false))
  {
    hide BoundsOf, Hull;
    if operations != [] {
      GatheredAreStated(env, host, operations[..|operations| - 1], operand);
      StatedStep(env, operations, operand, true);
      StatedStep(env, operations, operand, false);
    }
  }

  /**
   An object that is no Boolean cut adds exactly the operands its operations state, those of
   kind 38 or of objects of that kind; one that is a cut has no operands.
   */
  lemma AdditionsAreStated(env: Environment, id: Id, mesh: SweptMesh, operations: seq<Operation>, operand: Operand)
    requires mesh.mesh.positions != [] && operations == if id in env.operations then env.operations[id] else []
    ensures operand in AdditionsOf(env, id, mesh) <==>
            env.objectType(id) != 11 && Stated(env, operations, operand, true)
  {
    hide BoundsOf, Hull, Gather, ByVolume, Stated;
    var gathered := GatheredFor(env, id, mesh);
    GatheredAreStated(env, BoundsOf(mesh.mesh.positions), OperationsOf(env, id), operand);
    SameOperands(gathered.additions, ByVolume(gathered.additions), operand);
  }

  lemma SameOperands(operands: seq<Operand>, sorted: seq<Operand>, operand: Operand)
    requires sorted == ByVolume(operands)
    ensures operand in sorted <==> operand in operands
  {
    hide ByVolume;
    ByVolumeIsPermutation(operands);
    assert operand in sorted <==> operand in multiset(sorted);
    assert operand in operands <==> operand in multiset(operands);
  }

  // ----- Boxes and the points in them -----

  datatype Axis = AlongX | AlongY | AlongZ

  function At(p: Vec, axis: Axis): real {
    match axis case AlongX => p.x case AlongY => p.y case AlongZ => p.z
  }

  /** Every upper point is more than the contact tolerance above every lower one. */
  ghost predicate Above(upper: set<Vec>, lower: set<Vec>, axis: Axis) {
    forall p, q :: p in upper && q in lower ==> At(p, axis) > At(q, axis) + 0.001
  }

  /** Along some axis, one of the two lies entirely above the other. */
  ghost predicate Apart(s: set<Vec>, t: set<Vec>) {
    exists axis :: Above(s, t, axis) || Above(t, s, axis)
  }

  ghost function Points(mesh: SweptMesh): set<Vec> {
    set p | p in mesh.mesh.positions
  }

  /** The vertices of a host and of all operands added to it. */
  ghost function Envelope(mesh: SweptMesh, additions: seq<Operand>): set<Vec> {
    Points(mesh) + (set operand, p | operand in additions && p in operand.mesh.mesh.positions :: p)
  }

  /** The box is the tightest one around the points. */
  ghost predicate Spans(bounds: Bounds, points: set<Vec>) {
    forall axis :: Lowest(bounds, points, axis) && Highest(bounds, points, axis)
  }

  ghost predicate Lowest(bounds: Bounds, points: set<Vec>, axis: Axis) {
    && (forall p :: p in points ==> At(bounds.minimum, axis) <= At(p, axis))
    && exists p :: p in points && At(p, axis) == At(bounds.minimum, axis)
  }

  ghost predicate Highest(bounds: Bounds, points: set<Vec>, axis: Axis) {
    && (forall p :: p in points ==> At(p, axis) <= At(bounds.maximum, axis))
    && exists p :: p in points && At(p, axis) == At(bounds.maximum, axis)
  }

  lemma HullSpans(a: Bounds, s: set<Vec>, b: Bounds, t: set<Vec>)
    requires Spans(a, s) && Spans(b, t)
    ensures Spans(Hull(a, b), s + t)
  {
    forall axis ensures Lowest(Hull(a, b), s + t, axis) && Highest(Hull(a, b), s + t, axis) {
      assert Lowest(a, s, axis) && Lowest(b, t, axis) && Highest(a, s, axis) && Highest(b, t, axis);
    }
  }

  lemma {:induction false} BoundsSpan(points: seq<Vec>)
    requires points != []
    ensures Spans(BoundsOf(points), set p | p in points)
  {
    var all := set p | p in points;
    var last := points[|points| - 1];
    assert Spans(Bounds(last, last), {last}) by {
      forall axis ensures Lowest(Bounds(last, last), {last}, axis) && Highest(Bounds(last, last), {last}, axis) {
        assert last in {last};
      }
    }
    if |points| == 1 {
      assert all == {last};
    } else {
      var front := points[..|points| - 1];
      BoundsSpan(front);
      HullSpans(BoundsOf(front), (set p | p in front), Bounds(last, last), {last});
      assert all == (set p | p in front) + {last};
    }
  }

  /** Two boxes come near each other if and only if no axis separates what they were built around. */
  lemma BoxesMeet(a: Bounds, s: set<Vec>, b: Bounds, t: set<Vec>)
    requires Spans(a, s) && Spans(b, t)
    ensures Intersects(a, b) <==> !Apart(s, t)
  {
    forall axis ensures Above(s, t, axis) <==> At(a.minimum, axis) > At(b.maximum, axis) + TOLERANCE {
      assert Lowest(a, s, axis) && Highest(b, t, axis);
    }
    forall axis ensures Above(t, s, axis) <==> At(b.minimum, axis) > At(a.maximum, axis) + TOLERANCE {
      assert Lowest(b, t, axis) && Highest(a, s, axis);
    }
    assert Intersects(a, b) ==> !Apart(s, t);
    if !Intersects(a, b) {
      Escapes(a, b);
    }
  }

  lemma Escapes(a: Bounds, b: Bounds)
    requires !Intersects(a, b)
    ensures exists axis: Axis :: At(a.minimum, axis) > At(b.maximum, axis) + TOLERANCE
              || At(b.minimum, axis) > At(a.maximum, axis) + TOLERANCE
  {
    var axis := if a.minimum.x > b.maximum.x + TOLERANCE || b.minimum.x > a.maximum.x + TOLERANCE then AlongX
      else if a.minimum.y > b.maximum.y + TOLERANCE || b.minimum.y > a.maximum.y + TOLERANCE then AlongY
      else AlongZ;
    assert At(a.minimum, axis) > At(b.maximum, axis) + TOLERANCE
        || At(b.minimum, axis) > At(a.maximum, axis) + TOLERANCE;
  }

  lemma {:induction false} GatheredSpan(env: Environment, mesh: SweptMesh, operations: seq<Operation>)
    requires mesh.mesh.positions != []
    ensures var g := Gather(env, BoundsOf(mesh.mesh.positions), operations);
      Spans(g.bounds, Envelope(mesh, g.additions))
  {
    hide BoundsOf, Hull, Spans;
    var host := BoundsOf(mesh.mesh.positions);
    BoundsSpan(mesh.mesh.positions);
    if operations == [] {
      assert Envelope(mesh, []) == Points(mesh);
    } else {
      var before, g := Gather(env, host, operations[..|operations| - 1]), Gather(env, host, operations);
      GatheredSpan(env, mesh, operations[..|operations| - 1]);
      if g.additions != before.additions {
        var added := g.additions[|before.additions|];
        BoundsSpan(added.mesh.mesh.positions);
        HullSpans(before.bounds, Envelope(mesh, before.additions), BoundsOf(added.mesh.mesh.positions),
            Points(added.mesh));
        OneMoreAddition(mesh, before.additions, added);
      }
    }
  }

  lemma OneMoreAddition(mesh: SweptMesh, additions: seq<Operand>, added: Operand)
    ensures Envelope(mesh, additions + [added]) == Envelope(mesh, additions) + Points(added.mesh)
  {
    var more := additions + [added];
    forall p ensures p in Envelope(mesh, more) <==> p in Envelope(mesh, additions) + Points(added.mesh) {
      if p in Points(added.mesh) { assert added in more; }
      forall operand | operand in additions ensures operand in more { }
    }
  }

  lemma EnvelopeSpans(env: Environment, id: Id, mesh: SweptMesh)
    requires mesh.mesh.positions != []
    ensures Spans(GatheredFor(env, id, mesh).bounds, Envelope(mesh, AdditionsOf(env, id, mesh)))
  {
    hide BoundsOf, Hull, Gather, ByVolume, Spans;
    var gathered := GatheredFor(env, id, mesh);
    BoundsSpan(mesh.mesh.positions);
    GatheredSpan(env, mesh, OperationsOf(env, id));
    assert Envelope(mesh, []) == Points(mesh);
    var sorted := AdditionsOf(env, id, mesh);
    forall operand ensures operand in sorted <==> operand in gathered.additions {
      SameOperands(gathered.additions, sorted, operand);
    }
    assert Envelope(mesh, sorted) == Envelope(mesh, gathered.additions);
  }

  // ----- Which cutters are kept -----

  lemma {:induction false} NearAreMeeting(cutters: seq<Operand>, bounds: Bounds, operand: Operand)
    requires AllSolid(cutters)
    ensures operand in Near(cutters, bounds) <==>
            operand in cutters && Intersects(bounds, BoundsOf(operand.mesh.mesh.positions))
  {
    hide Intersects, BoundsOf;
    if cutters != [] { NearAreMeeting(cutters[1..], bounds, operand); }
  }

  lemma {:induction false} TrimmedKeeps(cutters: seq<Operand>, bounds: Bounds, operand: Operand)
    ensures operand in Trimmed(cutters, bounds) <==>
            exists cutter :: cutter in cutters && operand == cutter.(mesh := TrimmedMesh(cutter.mesh, bounds))
  {
    hide TrimmedMesh;
    if cutters != [] {
      var front, last := cutters[..|cutters| - 1], cutters[|cutters| - 1];
      TrimmedKeeps(front, bounds, operand);
      assert last in cutters;
      assert forall cutter :: cutter in cutters <==> cutter in front || cutter == last;
    }
  }

  lemma {:induction false} NotEmptyKeeps(cutters: seq<Operand>, operand: Operand)
    ensures operand in NotEmpty(cutters) <==>
            operand in cutters && operand.mesh.mesh.positions != [] && operand.mesh.mesh.indices != []
  {
    if cutters != [] { NotEmptyKeeps(cutters[1..], operand); }
  }

  lemma {:induction false} ExpandedKeeps(env: Environment, host: Id, mesh: SweptMesh, cutters: seq<Operand>,
                                         extension: real, operand: Operand)
    ensures operand in Expanded(env, host, mesh, cutters, extension) <==>
            exists cutter :: cutter in cutters
              && operand == cutter.(mesh := env.expand(host, cutter.id, mesh, cutter.mesh, extension))
  {
    if cutters != [] {
      ExpandedKeeps(env, host, mesh, cutters[1..], extension, operand);
      assert cutters[0] in cutters;
      assert forall cutter :: cutter in cutters <==> cutter == cutters[0] || cutter in cutters[1..];
    }
  }

  /** What a cutter becomes on its way to the object: cut back to the envelope, then widened. */
  ghost function Prepared(env: Environment, id: Id, mesh: SweptMesh, cutter: Operand, bounds: Bounds,
                          extension: real): Operand {
    var trimmed := cutter.(mesh := TrimmedMesh(cutter.mesh, bounds));
    trimmed.(mesh := env.expand(id, trimmed.id, mesh, trimmed.mesh, extension))
  }

  /** A gathered cutter that meets the envelope and of which something is left once it is cut back. */
  ghost predicate Survives(gathered: Gathered, cutter: Operand)
    requires AllSolid(gathered.cutters)
  {
    && cutter in gathered.cutters && Intersects(gathered.bounds, BoundsOf(cutter.mesh.mesh.positions))
    && TrimmedMesh(cutter.mesh, gathered.bounds).mesh.positions != []
    && TrimmedMesh(cutter.mesh, gathered.bounds).mesh.indices != []
  }

  lemma KeptSurvive(gathered: Gathered, trimmed: Operand)
    requires AllSolid(gathered.cutters)
    ensures var bounds := gathered.bounds;
      trimmed in NotEmpty(Trimmed(Near(gathered.cutters, bounds), bounds)) <==>
        exists cutter :: Survives(gathered, cutter)
          && trimmed == cutter.(mesh := TrimmedMesh(cutter.mesh, bounds))
  {
    hide BoundsOf, Intersects, TrimmedMesh, Near, Trimmed, NotEmpty;
    var bounds := gathered.bounds;
    var near := Near(gathered.cutters, bounds);
    NotEmptyKeeps(Trimmed(near, bounds), trimmed);
    TrimmedKeeps(near, bounds, trimmed);
    forall cutter ensures cutter in near <==>
        cutter in gathered.cutters && Intersects(bounds, BoundsOf(cutter.mesh.mesh.positions)) {
      NearAreMeeting(gathered.cutters, bounds, cutter);
    }
  }

  /** How far the kept cutters of an object are widened. */
  ghost function ExtensionFor(env: Environment, id: Id, mesh: SweptMesh): real
    requires mesh.mesh.positions != []
  {
    var gathered := GatheredFor(env, id, mesh);
    GatheredAreSolid(env, BoundsOf(mesh.mesh.positions), OperationsOf(env, id));
    Extension(NotEmpty(Trimmed(Near(gathered.cutters, gathered.bounds), gathered.bounds)))
  }

  lemma CuttersArePrepared(env: Environment, id: Id, mesh: SweptMesh, operand: Operand)
    requires mesh.mesh.positions != []
    ensures var gathered := GatheredFor(env, id, mesh);
      && AllSolid(gathered.cutters)
      && (operand in CuttersOf(env, id, mesh) <==>
            exists cutter :: Survives(gathered, cutter)
              && operand == Prepared(env, id, mesh, cutter, gathered.bounds, ExtensionFor(env, id, mesh)))
  {
    hide Gather, BoundsOf, Near, Trimmed, NotEmpty, Extension, Expanded, ByVolume, AllSolid, Survives, TrimmedMesh;
    GatheredAreSolid(env, BoundsOf(mesh.mesh.positions), OperationsOf(env, id));
    var gathered, extension := GatheredFor(env, id, mesh), ExtensionFor(env, id, mesh);
    EmptyIsSolid();
    var kept := NotEmpty(Trimmed(Near(gathered.cutters, gathered.bounds), gathered.bounds));
    var widened := Expanded(env, id, mesh, kept, extension);
    SameOperands(widened, ByVolume(widened), operand);
    ExpandedKeeps(env, id, mesh, kept, extension, operand);
    forall trimmed ensures trimmed in kept <==>
        (exists cutter :: Survives(gathered, cutter)
          && trimmed == cutter.(mesh := TrimmedMesh(cutter.mesh, gathered.bounds))) {
      KeptSurvive(gathered, trimmed);
    }
    forall cutter | Survives(gathered, cutter)
        ensures cutter.(mesh := TrimmedMesh(cutter.mesh, gathered.bounds)) in kept { }
  }

  /** A vertex of the cutter and one of the envelope are not told apart along any axis. */
  ghost predicate Meets(env: Environment, id: Id, mesh: SweptMesh, cutter: Operand)
    requires mesh.mesh.positions != []
  {
    !Apart(Envelope(mesh, AdditionsOf(env, id, mesh)), Points(cutter.mesh))
  }

  lemma SurvivorsMeet(env: Environment, id: Id, mesh: SweptMesh, cutter: Operand)
    requires mesh.mesh.positions != []
    ensures var gathered, operations := GatheredFor(env, id, mesh), OperationsOf(env, id);
      && AllSolid(gathered.cutters)
      && (cutter in gathered.cutters <==> env.objectType(id) != 11 && Stated(env, operations, cutter, false))
      && (cutter in gathered.cutters ==>
            && (Intersects(gathered.bounds, BoundsOf(cutter.mesh.mesh.positions)) <==> Meets(env, id, mesh, cutter))
            && (Survives(gathered, cutter) ==> Meets(env, id, mesh, cutter))
            && (cutter.mesh.recipe.None? ==>
                  (Survives(gathered, cutter) <==> Meets(env, id, mesh, cutter) && cutter.mesh.mesh.indices != [])))
  {
    hide Gather, BoundsOf, ByVolume, Stated, Spans, Intersects, Apart, Envelope, Points, LooksTrimmable;
    var gathered := GatheredFor(env, id, mesh);
    EmptyIsSolid();
    GatheredAreSolid(env, BoundsOf(mesh.mesh.positions), OperationsOf(env, id));
    GatheredAreStated(env, BoundsOf(mesh.mesh.positions), OperationsOf(env, id), cutter);
    if cutter in gathered.cutters {
      EnvelopeSpans(env, id, mesh);
      PointsSpan(cutter.mesh);
      BoxesMeet(gathered.bounds, Envelope(mesh, AdditionsOf(env, id, mesh)), BoundsOf(cutter.mesh.mesh.positions),
          Points(cutter.mesh));
      if cutter.mesh.recipe.None? { PlainIsLeftAlone(cutter.mesh, gathered.bounds); }
    }
  }

  lemma PointsSpan(mesh: SweptMesh)
    requires mesh.mesh.positions != []
    ensures Spans(BoundsOf(mesh.mesh.positions), Points(mesh))
  {
    BoundsSpan(mesh.mesh.positions);
  }

  lemma PlainIsLeftAlone(mesh: SweptMesh, bounds: Bounds)
    requires mesh.recipe.None?
    ensures TrimmedMesh(mesh, bounds) == mesh
  {
  }

  /**
   A cutter is never taken when along some axis all its vertices lie more than the contact
   tolerance above, or all below, every vertex of the host and of what is added to it. A cutter
   without a recipe to cut it back by is taken whenever it has triangles and no axis tells the
   two apart.
   */
  lemma CutterIsTaken(env: Environment, id: Id, mesh: SweptMesh, operations: seq<Operation>, cutter: Operand)
    requires mesh.mesh.positions != [] && operations == if id in env.operations then env.operations[id] else []
    requires env.objectType(id) != 11 && Stated(env, operations, cutter, false)
    ensures var apart := Apart(Envelope(mesh, AdditionsOf(env, id, mesh)), Points(cutter.mesh));
      && (apart ==> !Takes(CuttersOf(env, id, mesh), cutter.id))
      && (cutter.mesh.recipe.None? ==>
            (Takes(CuttersOf(env, id, mesh), cutter.id) <==> !apart && cutter.mesh.mesh.indices != []))
  {
    hide Gather, GatheredFor, CuttersOf, AdditionsOf, ExtensionFor, Survives, TrimmedMesh, Apart, Envelope, Points;
    var gathered, cutters := GatheredFor(env, id, mesh), CuttersOf(env, id, mesh);
    SurvivorsMeet(env, id, mesh, cutter);
    var extension := ExtensionFor(env, id, mesh);
    if Takes(cutters, cutter.id) {
      var k :| 0 <= k < |cutters| && cutters[k].id == cutter.id;
      CuttersArePrepared(env, id, mesh, cutters[k]);
      var other :| Survives(gathered, other)
          && cutters[k] == Prepared(env, id, mesh, other, gathered.bounds, extension);
      SurvivorsMeet(env, id, mesh, other);
      assert other in gathered.cutters by { SurvivorsAreGathered(gathered, other); }
      assert other == cutter;
    }
    if Survives(gathered, cutter) {
      var prepared := Prepared(env, id, mesh, cutter, gathered.bounds, extension);
      CuttersArePrepared(env, id, mesh, prepared);
      assert prepared in cutters;
    }
  }

  lemma SurvivorsAreGathered(gathered: Gathered, cutter: Operand)
    requires AllSolid(gathered.cutters) && Survives(gathered, cutter)
    ensures cutter in gathered.cutters
  {
  }

  ghost function Volumes(operands: seq<Operand>): set<real> {
    set operand | operand in operands :: operand.volume
  }

  /** More than one cutter, one of them solid, and any two of one size up to the tolerance. */
  ghost predicate OneSize(cutters: seq<Operand>) {
    var volumes := Volumes(cutters);
    && |cutters| > 1
    && exists largest :: largest in volumes && largest > 0.0
         && forall a, b :: a in volumes && b in volumes ==>
              a - b <= 1.0 || a - b <= largest * 0.00000001
  }

  lemma VolumesOver(a: seq<Operand>, b: seq<Operand>)
    ensures Volumes(a + b) == Volumes(a) + Volumes(b)
  {
    assert forall operand :: operand in a + b <==> operand in a || operand in b;
  }

  lemma {:induction false} LeastIsLeast(operands: seq<Operand>)
    requires operands != []
    ensures LeastVolume(operands) in Volumes(operands)
    ensures forall v :: v in Volumes(operands) ==> LeastVolume(operands) <= v
  {
    var front, last := operands[..|operands| - 1], operands[|operands| - 1];
    if front != [] { LeastIsLeast(front); }
    VolumesOver(front, [last]);
    assert operands == front + [last] && Volumes([last]) == {last.volume};
    if front == [] { assert Volumes(front) == {}; }
  }

  lemma {:induction false} GreatestIsGreatest(operands: seq<Operand>)
    requires operands != []
    ensures GreatestVolume(operands) in Volumes(operands)
    ensures forall v :: v in Volumes(operands) ==> v <= GreatestVolume(operands)
  {
    var front, last := operands[..|operands| - 1], operands[|operands| - 1];
    if front != [] { GreatestIsGreatest(front); }
    VolumesOver(front, [last]);
    assert operands == front + [last] && Volumes([last]) == {last.volume};
    if front == [] { assert Volumes(front) == {}; }
  }

  lemma SiblingsWiden(cutters: seq<Operand>)
    ensures Extension(cutters) == if OneSize(cutters) then 0.001 else 0.00001
  {
    hide LeastVolume, GreatestVolume;
    if |cutters| > 1 {
      LeastIsLeast(cutters);
      GreatestIsGreatest(cutters);
    }
  }

  lemma {:induction false} ExpandedVolumes(env: Environment, host: Id, mesh: SweptMesh, cutters: seq<Operand>,
                                           extension: real, k: nat)
    requires k < |cutters|
    ensures Expanded(env, host, mesh, cutters, extension)[k].volume == cutters[k].volume
  {
    if k > 0 { ExpandedVolumes(env, host, mesh, cutters[1..], extension, k - 1); }
  }

  lemma ExpandedSameVolumes(env: Environment, host: Id, mesh: SweptMesh, cutters: seq<Operand>, extension: real)
    ensures Volumes(Expanded(env, host, mesh, cutters, extension)) == Volumes(cutters)
  {
    hide Expanded;
    var widened := Expanded(env, host, mesh, cutters, extension);
    forall k | 0 <= k < |cutters| ensures widened[k].volume == cutters[k].volume {
      ExpandedVolumes(env, host, mesh, cutters, extension, k);
    }
    forall v ensures v in Volumes(widened) <==> v in Volumes(cutters) {
      if v in Volumes(cutters) {
        var k :| 0 <= k < |cutters| && cutters[k].volume == v;
        assert widened[k] in widened;
      }
      if v in Volumes(widened) {
        var k :| 0 <= k < |widened| && widened[k].volume == v;
        assert cutters[k] in cutters;
      }
    }
  }

  lemma SortedSameVolumes(operands: seq<Operand>)
    ensures Volumes(ByVolume(operands)) == Volumes(operands)
  {
    hide ByVolume;
    forall o ensures o in ByVolume(operands) <==> o in operands {
      SameOperands(operands, ByVolume(operands), o);
    }
  }

  /** How far cutters are widened, told from the volumes of the cutters the object ends up with. */
  lemma ExtensionBySiblings(env: Environment, id: Id, mesh: SweptMesh)
    requires mesh.mesh.positions != []
    ensures ExtensionFor(env, id, mesh) == if OneSize(CuttersOf(env, id, mesh)) then 0.001 else 0.00001
  {
    hide GatheredFor, BoundsOf, Near, Trimmed, NotEmpty, Extension, Expanded, ByVolume, AllSolid, Volumes;
    var gathered := GatheredFor(env, id, mesh);
    assert AllSolid(gathered.cutters) by { GatheredSolid(env, id, mesh); }
    var kept := NotEmpty(Trimmed(Near(gathered.cutters, gathered.bounds), gathered.bounds));
    var widened := Expanded(env, id, mesh, kept, Extension(kept));
    SiblingsWiden(kept);
    ExpandedSameVolumes(env, id, mesh, kept, Extension(kept));
    SortedSameVolumes(widened);
  }

  lemma GatheredSolid(env: Environment, id: Id, mesh: SweptMesh)
    requires mesh.mesh.positions != []
    ensures AllSolid(GatheredFor(env, id, mesh).cutters)
  {
    hide Gather;
    GatheredAreSolid(env, BoundsOf(mesh.mesh.positions), OperationsOf(env, id));
  }

  /**
   Every cutter of an object is one its operations state and that meets the envelope, widened
   by a thousandth among siblings of one size and by a hundred-thousandth otherwise; without a
   recipe it is the stated mesh itself that is widened. A Boolean cut has no cutters.
   */
  lemma CuttersAreStated(env: Environment, id: Id, mesh: SweptMesh, operations: seq<Operation>, operand: Operand)
    requires mesh.mesh.positions != [] && operations == if id in env.operations then env.operations[id] else []
    requires operand in CuttersOf(env, id, mesh)
    ensures env.objectType(id) != 11
    ensures exists cutter ::
              && Stated(env, operations, cutter, false)
              && !Apart(Envelope(mesh, AdditionsOf(env, id, mesh)), Points(cutter.mesh))
              && operand.id == cutter.id && operand.volume == cutter.volume
              && (cutter.mesh.recipe.None? ==>
                    operand.mesh == env.expand(id, cutter.id, mesh, cutter.mesh,
                      if OneSize(CuttersOf(env, id, mesh)) then 0.001 else 0.00001))
  {
    hide GatheredFor, CuttersOf, AdditionsOf, ExtensionFor, Survives, TrimmedMesh, Apart, Envelope, Points, Stated,
      OneSize;
    var gathered := GatheredFor(env, id, mesh);
    CuttersArePrepared(env, id, mesh, operand);
    var cutter :| Survives(gathered, cutter)
      && operand == Prepared(env, id, mesh, cutter, gathered.bounds, ExtensionFor(env, id, mesh));
    SurvivorsMeet(env, id, mesh, cutter);
    SurvivorsAreGathered(gathered, cutter);
    ExtensionBySiblings(env, id, mesh);
    if cutter.mesh.recipe.None? { PlainIsLeftAlone(cutter.mesh, gathered.bounds); }
  }

  // ----- Chamfers -----

  /** The chamfer cutters of an object are those its operations of kind 79 have. */
  lemma {:induction false} ChamfersAreStated(env: Environment, id: Id, mesh: SweptMesh, operations: seq<Operation>,
                                             operand: Operand)
    ensures operand in ChamfersOf(env, id, mesh, operations) <==>
            && operand.volume == 0.0 && env.chamfer(id, mesh, operand.id) == Some(operand.mesh)
            && exists k :: 0 <= k < |operations| && operations[k].kind == 79 && operations[k].target == operand.id
  {
    if operations != [] {
      var n := |operations| - 1;
      ChamfersAreStated(env, id, mesh, operations[..n], operand);
      assert forall k :: 0 <= k < n ==> operations[..n][k] == operations[k];
    }
  }

  // ----- The order of the operands -----

  /** The operands of one size, in order. */
  ghost function OfVolume(operands: seq<Operand>, volume: real): seq<Operand> {
    if operands == [] then []
    else
      var front, last := OfVolume(operands[..|operands| - 1], volume), operands[|operands| - 1];
      if last.volume == volume then front + [last] else front
  }

  lemma {:induction false} OfVolumeOver(a: seq<Operand>, b: seq<Operand>, volume: real)
    ensures OfVolume(a + b, volume) == OfVolume(a, volume) + OfVolume(b, volume)
  {
    if b == [] {
      assert a + b == a;
    } else {
      OfVolumeOver(a, b[..|b| - 1], volume);
      assert (a + b)[..|a + b| - 1] == a + b[..|b| - 1];
    }
  }

  lemma {:induction false} NoneOfVolume(operands: seq<Operand>, volume: real)
    requires forall j :: 0 <= j < |operands| ==> operands[j].volume != volume
    ensures OfVolume(operands, volume) == []
  {
    if operands != [] { NoneOfVolume(operands[..|operands| - 1], volume); }
  }

  lemma InsertIsStable(operands: seq<Operand>, operand: Operand, volume: real)
    requires Descending(operands)
    ensures OfVolume(Insert(operands, operand), volume)
              == OfVolume(operands, volume) + if operand.volume == volume then [operand] else []
  {
    hide OfVolume, Place, Descending;
    var k := Place(operands, operand.volume);
    var front, back := operands[..k], operands[k..];
    assert front + back == operands;
    OfVolumeOver(front, back, volume);
    OfVolumeOver(front + [operand], back, volume);
    OfVolumeOver(front, [operand], volume);
    JustOne(operand, volume);
    if operand.volume == volume { NoneOfVolume(back, volume); }
  }

  lemma JustOne(operand: Operand, volume: real)
    ensures OfVolume([operand], volume) == if operand.volume == volume then [operand] else []
  {
    assert OfVolume([operand][..0], volume) == [];
  }

  /** Sorting leaves operands of one size in the order they came in. */
  lemma {:induction false} ByVolumeIsStable(operands: seq<Operand>, volume: real)
    ensures OfVolume(ByVolume(operands), volume) == OfVolume(operands, volume)
  {
    hide Insert;
    if operands != [] {
      ByVolumeIsStable(operands[..|operands| - 1], volume);
      InsertIsStable(ByVolume(operands[..|operands| - 1]), operands[|operands| - 1], volume);
    }
  }
}
