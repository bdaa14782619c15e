/** Which fitting planes an object keeps, told from its persisted operations and the planes of their targets. */
module FittingPlanes {
  import opened OperandSelection
  import opened OperationPlans
  import opened SweepTrim
  import opened Vectors
  import opened Wrappers

  /** The point halfway between the lowest and the highest coordinates of the points. */
  ghost predicate IsMiddle(middle: Vec, points: set<Vec>) {
    exists box :: Spans(box, points) && Add(middle, middle) == Add(box.minimum, box.maximum)
  }

  lemma MiddleOfVertices(mesh: SweptMesh)
    requires mesh.mesh.positions != []
    ensures IsMiddle(Midpoint(BoundsOf(mesh.mesh.positions)), Points(mesh))
  {
    hide BoundsOf, Spans;
    var box := BoundsOf(mesh.mesh.positions);
    PointsSpan(mesh);
    assert Add(Midpoint(box), Midpoint(box)) == Add(box.minimum, box.maximum);
  }

  function Reversed(v: Vec): Vec {
    Vec(-v.x, -v.y, -v.z)
  }

  /**
   The operation offers a plane through its target's origin: a line cut the reversed one, a
   fitting the one of the two with the middle of the host in front of it.
   */
  ghost predicate Offers(env: Environment, middle: Vec, operation: Operation, candidate: Candidate) {
    && candidate.operation == operation && env.fitting(operation.target).Some?
    && var plane, offered := env.fitting(operation.target).value, candidate.plane;
    && offered.origin == plane.origin
    && match operation.kind
       case 12 => offered.normal == Reversed(plane.normal)
       case 9 =>
         && (offered.normal == plane.normal
             || (offered.normal == Reversed(plane.normal) && Dot(Subtract(middle, plane.origin), plane.normal) != 0.0))
         && Dot(Subtract(middle, plane.origin), offered.normal) >= 0.0
       case _ => false
  }

  lemma ReversedDot(a: Vec, n: Vec)
    ensures Dot(a, Reversed(n)) == -Dot(a, n) && Reversed(n) == Scale(n, -1.0)
  {
  }

  lemma PlaneIsOffered(env: Environment, middle: Vec, operation: Operation)
    ensures var plane := PlaneOf(env, middle, operation);
      && (plane.Some? ==> Offers(env, middle, operation, plane.value))
      && forall candidate :: Offers(env, middle, operation, candidate) ==> plane == Some(candidate)
  {
    hide Dot, Scale, Reversed, Subtract;
    var given := env.fitting(operation.target);
    if given.Some? {
      ReversedDot(Subtract(middle, given.value.origin), given.value.normal);
      forall candidate | Offers(env, middle, operation, candidate)
          ensures PlaneOf(env, middle, operation) == Some(candidate) {
        assert candidate == Candidate(Plane(candidate.plane.origin, candidate.plane.normal), candidate.operation);
      }
    }
  }

  /** Fittings whose normals agree to a hundred-millionth. */
  predicate OneNormal(a: Candidate, b: Candidate) {
    a.operation.kind == 9 && b.operation.kind == 9 && Dot(a.plane.normal, b.plane.normal) >= 0.99999999
  }

  /** By event, and within an event by relation. */
  predicate Supersedes(a: Operation, b: Operation) {
    a.event > b.event || (a.event >= b.event && a.relation > b.relation)
  }

  /** A candidate takes the place of the first fitting of its normal if it supersedes it, or joins if there is none. */
  lemma MergedPlanes(planes: seq<Candidate>, candidate: Candidate)
    ensures var merged := Merge(planes, candidate);
      if forall j :: 0 <= j < |planes| ==> !OneNormal(planes[j], candidate) then merged == planes + [candidate]
      else
        exists k :: 0 <= k < |planes| && OneNormal(planes[k], candidate)
          && (forall j :: 0 <= j < k ==> !OneNormal(planes[j], candidate))
          && merged == if Supersedes(candidate.operation, planes[k].operation) then planes[k := candidate] else planes
  {
    hide Dot;
    var k := Rival(planes, candidate);
    if candidate.operation.kind == 9 && k < |planes| {
      assert OneNormal(planes[k], candidate);
      forall j | 0 <= j < k ensures !OneNormal(planes[j], candidate) {
        assert !SameFitting(planes[j], candidate);
      }
    } else {
      forall j | 0 <= j < |planes| ensures !OneNormal(planes[j], candidate) {
        assert k == |planes| ==> !SameFitting(planes[j], candidate);
      }
    }
  }

  // ----- Whole lists of operations -----

  ghost predicate OfferedBy(env: Environment, middle: Vec, operations: seq<Operation>, candidate: Candidate) {
    exists k :: 0 <= k < |operations| && Offers(env, middle, operations[k], candidate)
  }

  /** Every kept plane is offered by some operation. */
  lemma {:induction false} KeptAreOffered(env: Environment, middle: Vec, operations: seq<Operation>)
    ensures forall c :: c in PlanesOf(env, middle, operations) ==> OfferedBy(env, middle, operations, c)
  {
    hide PlaneOf, Merge, Offers;
    if operations != [] {
      var n := |operations| - 1;
      var before, candidate := PlanesOf(env, middle, operations[..n]), PlaneOf(env, middle, operations[n]);
      KeptAreOffered(env, middle, operations[..n]);
      PlaneIsOffered(env, middle, operations[n]);
      forall c | c in PlanesOf(env, middle, operations) ensures OfferedBy(env, middle, operations, c) {
        if candidate.Some? { MergedFrom(before, candidate.value, c); }
        if c in before {
          var k :| 0 <= k < n && Offers(env, middle, operations[..n][k], c);
          assert Offers(env, middle, operations[k], c);
        }
      }
    }
  }

  lemma MergedFrom(planes: seq<Candidate>, candidate: Candidate, c: Candidate)
    requires c in Merge(planes, candidate)
    ensures c in planes || c == candidate
  {
    hide Merge, OneNormal, Supersedes;
    MergedPlanes(planes, candidate);
  }

  /** No fitting of the same normal supersedes the candidate, nor is as late. */
  ghost predicate IsLatest(env: Environment, middle: Vec, operations: seq<Operation>, candidate: Candidate) {
    forall k, other :: 0 <= k < |operations| && Offers(env, middle, operations[k], other) ==>
      (OneNormal(other, candidate) && other != candidate ==> Supersedes(candidate.operation, other.operation))
  }

  /**
   The plane of every line cut is kept, and of the fittings of one normal the latest; whatever
   is offered last or first does not matter.
   */
  lemma {:induction false} LatestIsKept(env: Environment, middle: Vec, operations: seq<Operation>, candidate: Candidate)
    requires OfferedBy(env, middle, operations, candidate) && IsLatest(env, middle, operations, candidate)
    ensures candidate in PlanesOf(env, middle, operations)
  {
    hide PlaneOf, Merge, Offers, OneNormal, Supersedes;
    var n := |operations| - 1;
    var front, last := operations[..n], operations[n];
    var before := PlanesOf(env, middle, front);
    PlaneIsOffered(env, middle, last);
    KeptAreOffered(env, middle, front);
    FrontIsLatest(env, middle, operations, candidate);
    var k :| 0 <= k < |operations| && Offers(env, middle, operations[k], candidate);
    if k < n {
      assert Offers(env, middle, front[k], candidate);
      LatestIsKept(env, middle, front, candidate);
      if PlaneOf(env, middle, last).Some? {
        StaysKept(before, PlaneOf(env, middle, last).value, candidate);
      }
    } else {
      Enters(before, candidate);
    }
  }

  lemma FrontIsLatest(env: Environment, middle: Vec, operations: seq<Operation>, candidate: Candidate)
    requires operations != [] && IsLatest(env, middle, operations, candidate)
    ensures var n := |operations| - 1;
      && IsLatest(env, middle, operations[..n], candidate)
      && (forall c :: OfferedBy(env, middle, operations[..n], c) && OneNormal(c, candidate) && c != candidate ==>
           Supersedes(candidate.operation, c.operation))
      && forall c :: Offers(env, middle, operations[n], c) && OneNormal(c, candidate) && c != candidate ==>
           Supersedes(candidate.operation, c.operation)
  {
    hide Offers, OneNormal, Supersedes;
    var n := |operations| - 1;
    forall k, c | 0 <= k < n && Offers(env, middle, operations[..n][k], c)
        ensures Offers(env, middle, operations[k], c) {
      assert operations[..n][k] == operations[k];
    }
  }

  lemma StaysKept(planes: seq<Candidate>, newer: Candidate, candidate: Candidate)
    requires candidate in planes
    requires OneNormal(newer, candidate) && newer != candidate ==> Supersedes(candidate.operation, newer.operation)
    ensures candidate in Merge(planes, newer)
  {
    hide Merge, Dot;
    MergedPlanes(planes, newer);
    var i :| 0 <= i < |planes| && planes[i] == candidate;
    DotCommutes(newer.plane.normal, candidate.plane.normal);
    assert Merge(planes, newer)[i] == candidate;
  }

  lemma DotCommutes(a: Vec, b: Vec)
    ensures Dot(a, b) == Dot(b, a)
  {
  }

  lemma Enters(planes: seq<Candidate>, candidate: Candidate)
    requires forall c :: c in planes && OneNormal(c, candidate) && c != candidate ==>
               Supersedes(candidate.operation, c.operation)
    ensures candidate in Merge(planes, candidate)
  {
    hide Merge, OneNormal, Supersedes;
    MergedPlanes(planes, candidate);
    var merged := Merge(planes, candidate);
    if forall j :: 0 <= j < |planes| ==> !OneNormal(planes[j], candidate) {
      assert merged[|planes|] == candidate;
    } else {
      var k :| 0 <= k < |planes| && OneNormal(planes[k], candidate)
        && merged == if Supersedes(candidate.operation, planes[k].operation) then planes[k := candidate] else planes;
      assert planes[k] in planes && merged[k] == candidate;
    }
  }
}
