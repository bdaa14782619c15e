/**
 What the cache's keys ignore: occurrences of a request that differ by a translation, or by
 their rigid placement, are looked up under the same key.
 */
module CacheSharing {
  import opened EvaluationRequests
  import opened Placements
  import opened Vectors
  import opened Wrappers

  // ----- Translations -----

  lemma AtKeepsVectors(v: Vec, origin: Vec)
    ensures WorldVector(v, At(origin)) == v && LocalVector(v, At(origin)) == v
  {
  }

  lemma AtShiftsPoints(p: Vec, origin: Vec)
    ensures WorldPoint(p, At(origin)) == Add(origin, p) && LocalPoint(p, At(origin)) == Subtract(p, origin)
  {
    hide WorldVector, LocalVector;
    AtKeepsVectors(p, origin);
    AtKeepsVectors(Subtract(p, origin), origin);
  }

  /** Seen from a point moved along, a moved point is where it was. */
  lemma PointSeenAlong(p: Vec, shift: Vec, origin: Vec)
    ensures LocalPoint(WorldPoint(p, At(shift)), At(Add(shift, origin))) == LocalPoint(p, At(origin))
  {
    hide WorldPoint, LocalPoint;
    AtShiftsPoints(p, shift);
    AtShiftsPoints(Add(shift, p), Add(shift, origin));
    AtShiftsPoints(p, origin);
  }

  lemma PointsSeenAlong(points: seq<Vec>, shift: Vec, origin: Vec)
    ensures LocalPoints(WorldPoints(points, At(shift)), At(Add(shift, origin))) == LocalPoints(points, At(origin))
  {
    hide WorldPoint, LocalPoint;
    forall i | 0 <= i < |points|
        ensures LocalPoints(WorldPoints(points, At(shift)), At(Add(shift, origin)))[i]
             == LocalPoints(points, At(origin))[i] {
      PointSeenAlong(points[i], shift, origin);
    }
  }

  lemma LoopsSeenAlong(loops: seq<seq<Vec>>, shift: Vec, origin: Vec)
    ensures LocalLoops(WorldLoops(loops, At(shift)), At(Add(shift, origin))) == LocalLoops(loops, At(origin))
  {
    hide WorldPoints, LocalPoints;
    forall i | 0 <= i < |loops|
        ensures LocalLoops(WorldLoops(loops, At(shift)), At(Add(shift, origin)))[i]
             == LocalLoops(loops, At(origin))[i] {
      PointsSeenAlong(loops[i], shift, origin);
    }
  }

  lemma SweepSeenAlong(sweep: seq<seq<seq<Vec>>>, shift: Vec, origin: Vec)
    ensures LocalSweep(WorldSweep(sweep, At(shift)), At(Add(shift, origin))) == LocalSweep(sweep, At(origin))
  {
    hide WorldLoops, LocalLoops;
    forall i | 0 <= i < |sweep|
        ensures LocalSweep(WorldSweep(sweep, At(shift)), At(Add(shift, origin)))[i]
             == LocalSweep(sweep, At(origin))[i] {
      LoopsSeenAlong(sweep[i], shift, origin);
    }
  }

  lemma PlanesSeenAlong(planes: seq<HalfSpace>, shift: Vec, origin: Vec)
    ensures LocalPlanes(WorldPlanes(planes, At(shift)), At(Add(shift, origin))) == LocalPlanes(planes, At(origin))
  {
    hide WorldPoint, LocalPoint, WorldVector, LocalVector;
    forall i | 0 <= i < |planes|
        ensures LocalPlanes(WorldPlanes(planes, At(shift)), At(Add(shift, origin)))[i]
             == LocalPlanes(planes, At(origin))[i] {
      PointSeenAlong(planes[i].origin, shift, origin);
      AtKeepsVectors(planes[i].normal, shift);
      AtKeepsVectors(planes[i].normal, Add(shift, origin));
      AtKeepsVectors(planes[i].normal, origin);
    }
  }

  lemma NodeSeenAlong(node: ShapeNode, shift: Vec, origin: Vec)
    ensures LocalNode(MovedNode(node, At(shift)), At(Add(shift, origin))) == LocalNode(node, At(origin))
  {
    hide WorldPoints, LocalPoints, WorldLoops, LocalLoops, WorldSweep, LocalSweep, WorldPlanes, LocalPlanes;
    hide WorldVector, LocalVector;
    PointsSeenAlong(node.positions, shift, origin);
    LoopsSeenAlong(node.loops, shift, origin);
    SweepSeenAlong(node.sweep, shift, origin);
    PlanesSeenAlong(node.planes, shift, origin);
    AtKeepsVectors(node.vector, shift);
    AtKeepsVectors(node.vector, Add(shift, origin));
    AtKeepsVectors(node.vector, origin);
  }

  /** The root of the request has a vertex, or a point in its prism or in its sweep. */
  ghost predicate HasPoint(request: Request) {
    && request.nodes != []
    && var root := request.nodes[0];
       || root.positions != []
       || (exists i :: 0 <= i < |root.loops| && root.loops[i] != [])
       || exists i, j :: 0 <= i < |root.sweep| && 0 <= j < |root.sweep[i]| && root.sweep[i][j] != []
  }

  lemma {:induction false} FirstPointMoves(loops: seq<seq<Vec>>, placement: Frame)
    ensures FirstPoint(WorldLoops(loops, placement))
              == if FirstPoint(loops).None? then None else Some(WorldPoint(FirstPoint(loops).value, placement))
    ensures FirstPoint(loops).Some? <==> exists i :: 0 <= i < |loops| && loops[i] != []
  {
    hide WorldPoint;
    if loops != [] {
      FirstPointMoves(loops[1..], placement);
      assert WorldLoops(loops, placement)[1..] == WorldLoops(loops[1..], placement);
      assert forall i :: 1 <= i < |loops| ==> loops[i] == loops[1..][i - 1];
    }
  }

  lemma {:induction false} FirstOfSweepMoves(sweep: seq<seq<seq<Vec>>>, placement: Frame)
    ensures FirstOfSweep(WorldSweep(sweep, placement))
              == if FirstOfSweep(sweep).None? then None else Some(WorldPoint(FirstOfSweep(sweep).value, placement))
    ensures FirstOfSweep(sweep).Some? <==>
            exists i, j :: 0 <= i < |sweep| && 0 <= j < |sweep[i]| && sweep[i][j] != []
  {
    hide WorldPoint, WorldLoops, FirstPoint;
    if sweep != [] {
      FirstPointMoves(sweep[0], placement);
      FirstOfSweepMoves(sweep[1..], placement);
      assert WorldSweep(sweep, placement)[1..] == WorldSweep(sweep[1..], placement);
      assert forall i :: 1 <= i < |sweep| ==> sweep[i] == sweep[1..][i - 1];
    }
  }

  /** The origin of a moved request is the origin moved along. */
  lemma OriginMoves(request: Request, shift: Vec)
    requires HasPoint(request)
    ensures OriginOf(Moved(request, At(shift))) == Add(shift, OriginOf(request))
  {
    hide WorldPoint, FirstPoint, FirstOfSweep;
    var root := request.nodes[0];
    FirstPointMoves(root.loops, At(shift));
    FirstOfSweepMoves(root.sweep, At(shift));
    AtShiftsPoints(OriginOf(request), shift);
    assert Moved(request, At(shift)).nodes[0] == MovedNode(root, At(shift));
  }

  /** A request with a point, and the same request moved by any translation, localise to one key. */
  lemma TranslatedShareKey(request: Request, shift: Vec)
    requires HasPoint(request)
    ensures var moved := Moved(request, At(shift));
            Localized(moved, At(OriginOf(moved))) == Localized(request, At(OriginOf(request)))
  {
    hide OriginOf, LocalNode, MovedNode, HasPoint, At;
    OriginMoves(request, shift);
    var moved, origin := Moved(request, At(shift)), OriginOf(request);
    var a, b := Localized(moved, At(OriginOf(moved))), Localized(request, At(origin));
    forall i | 0 <= i < |request.nodes| ensures a.nodes[i] == b.nodes[i] {
      NodeSeenAlong(request.nodes[i], shift, origin);
    }
    assert a.nodes == b.nodes;
  }

  // ----- Rigid placements -----

  lemma VectorSeenBack(v: Vec, placement: Frame)
    requires IsRigid(placement)
    ensures LocalVector(WorldVector(v, placement), placement) == v
  {
    hide LocalVector, WorldVector, IsRigid;
    LocalReturns(v, placement);
    assert Subtract(WorldPoint(v, placement), placement.origin) == WorldVector(v, placement);
  }

  lemma PointsSeenBack(points: seq<Vec>, placement: Frame)
    requires IsRigid(placement)
    ensures LocalPoints(WorldPoints(points, placement), placement) == points
  {
    hide WorldPoint, LocalPoint, IsRigid;
    forall i | 0 <= i < |points| ensures LocalPoints(WorldPoints(points, placement), placement)[i] == points[i] {
      LocalReturns(points[i], placement);
    }
  }

  lemma LoopsSeenBack(loops: seq<seq<Vec>>, placement: Frame)
    requires IsRigid(placement)
    ensures LocalLoops(WorldLoops(loops, placement), placement) == loops
  {
    hide WorldPoints, LocalPoints, IsRigid;
    forall i | 0 <= i < |loops| ensures LocalLoops(WorldLoops(loops, placement), placement)[i] == loops[i] {
      PointsSeenBack(loops[i], placement);
    }
  }

  lemma SweepSeenBack(sweep: seq<seq<seq<Vec>>>, placement: Frame)
    requires IsRigid(placement)
    ensures LocalSweep(WorldSweep(sweep, placement), placement) == sweep
  {
    hide WorldLoops, LocalLoops, IsRigid;
    forall i | 0 <= i < |sweep| ensures LocalSweep(WorldSweep(sweep, placement), placement)[i] == sweep[i] {
      LoopsSeenBack(sweep[i], placement);
    }
  }

  lemma PlanesSeenBack(planes: seq<HalfSpace>, placement: Frame)
    requires IsRigid(placement)
    ensures LocalPlanes(WorldPlanes(planes, placement), placement) == planes
  {
    hide WorldPoint, LocalPoint, WorldVector, LocalVector, IsRigid;
    forall i | 0 <= i < |planes| ensures LocalPlanes(WorldPlanes(planes, placement), placement)[i] == planes[i] {
      LocalReturns(planes[i].origin, placement);
      VectorSeenBack(planes[i].normal, placement);
    }
  }

  lemma NodeSeenBack(node: ShapeNode, placement: Frame)
    requires IsRigid(placement)
    ensures LocalNode(MovedNode(node, placement), placement) == node.(id := 0)
  {
    hide WorldPoints, LocalPoints, WorldLoops, LocalLoops, WorldSweep, LocalSweep, WorldPlanes, LocalPlanes;
    hide WorldVector, LocalVector, IsRigid;
    PointsSeenBack(node.positions, placement);
    LoopsSeenBack(node.loops, placement);
    SweepSeenBack(node.sweep, placement);
    PlanesSeenBack(node.planes, placement);
    VectorSeenBack(node.vector, placement);
  }

  /** All rigid occurrences of a request localise to one key, whatever the ids of its objects. */
  lemma RigidShareKey(request: Request, placement: Frame)
    requires IsRigid(placement)
    ensures Localized(Moved(request, placement), placement) == Anonymous(request)
  {
    hide LocalNode, MovedNode, IsRigid;
    var local, plain := Localized(Moved(request, placement), placement), Anonymous(request);
    forall i | 0 <= i < |request.nodes| ensures local.nodes[i] == plain.nodes[i] {
      NodeSeenBack(request.nodes[i], placement);
    }
    assert local.nodes == plain.nodes;
  }
}
