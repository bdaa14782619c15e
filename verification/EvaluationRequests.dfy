/**
 Topology requests, moved as a whole: writing a request in the coordinates of a rigid frame
 and placing it back returns it.
 */
module EvaluationRequests {
  import opened Placements
  import opened Vectors
  import opened Wrappers

  datatype HalfSpace = HalfSpace(origin: Vec, normal: Vec)

  datatype ShapeNode = ShapeNode(id: nat, positions: seq<Vec>, indices: seq<nat>, loops: seq<seq<Vec>>, vector: Vec,
                                 sweep: seq<seq<seq<Vec>>>, circular: bool, planes: seq<HalfSpace>,
                                 unions: seq<nat>, subtracts: seq<nat>)

  datatype Request = Request(id: nat, nodes: seq<ShapeNode>, linear: real, angular: real)

  // ----- Lists of loops and planes -----

  function LocalLoops(loops: seq<seq<Vec>>, placement: Frame): (r: seq<seq<Vec>>)
    ensures |r| == |loops|
  {
    seq(|loops|, (i: nat) requires i < |loops| => LocalPoints(loops[i], placement))
  }

  function WorldLoops(loops: seq<seq<Vec>>, placement: Frame): (r: seq<seq<Vec>>)
    ensures |r| == |loops|
  {
    seq(|loops|, (i: nat) requires i < |loops| => WorldPoints(loops[i], placement))
  }

  function LocalSweep(sweep: seq<seq<seq<Vec>>>, placement: Frame): (r: seq<seq<seq<Vec>>>)
    ensures |r| == |sweep|
  {
    seq(|sweep|, (i: nat) requires i < |sweep| => LocalLoops(sweep[i], placement))
  }

  function WorldSweep(sweep: seq<seq<seq<Vec>>>, placement: Frame): (r: seq<seq<seq<Vec>>>)
    ensures |r| == |sweep|
  {
    seq(|sweep|, (i: nat) requires i < |sweep| => WorldLoops(sweep[i], placement))
  }

  function LocalPlanes(planes: seq<HalfSpace>, placement: Frame): (r: seq<HalfSpace>)
    ensures |r| == |planes|
  {
    seq(|planes|, (i: nat) requires i < |planes| =>
      HalfSpace(LocalPoint(planes[i].origin, placement), LocalVector(planes[i].normal, placement)))
  }

  function WorldPlanes(planes: seq<HalfSpace>, placement: Frame): (r: seq<HalfSpace>)
    ensures |r| == |planes|
  {
    seq(|planes|, (i: nat) requires i < |planes| =>
      HalfSpace(WorldPoint(planes[i].origin, placement), WorldVector(planes[i].normal, placement)))
  }

  lemma LoopsReturn(loops: seq<seq<Vec>>, placement: Frame)
    requires IsRigid(placement)
    ensures WorldLoops(LocalLoops(loops, placement), placement) == loops
  {
    hide IsRigid, LocalPoints, WorldPoints;
    forall i | 0 <= i < |loops| ensures WorldLoops(LocalLoops(loops, placement), placement)[i] == loops[i] {
      PointsReturn(loops[i], placement);
    }
  }

  lemma SweepReturns(sweep: seq<seq<seq<Vec>>>, placement: Frame)
    requires IsRigid(placement)
    ensures WorldSweep(LocalSweep(sweep, placement), placement) == sweep
  {
    hide IsRigid, LocalLoops, WorldLoops;
    forall i | 0 <= i < |sweep| ensures WorldSweep(LocalSweep(sweep, placement), placement)[i] == sweep[i] {
      LoopsReturn(sweep[i], placement);
    }
  }

  lemma PlanesReturn(planes: seq<HalfSpace>, placement: Frame)
    requires IsRigid(placement)
    ensures WorldPlanes(LocalPlanes(planes, placement), placement) == planes
  {
    hide IsRigid, LocalPoint, WorldPoint, LocalVector, WorldVector;
    forall i | 0 <= i < |planes| ensures WorldPlanes(LocalPlanes(planes, placement), placement)[i] == planes[i] {
      PointReturns(planes[i].origin, placement);
      VectorReturns(planes[i].normal, placement);
    }
  }

  // ----- Whole requests -----

  function LocalNode(node: ShapeNode, placement: Frame): ShapeNode {
    node.(id := 0, positions := LocalPoints(node.positions, placement), loops := LocalLoops(node.loops, placement),
          vector := LocalVector(node.vector, placement), sweep := LocalSweep(node.sweep, placement),
          planes := LocalPlanes(node.planes, placement))
  }

  function MovedNode(node: ShapeNode, placement: Frame): ShapeNode {
    node.(positions := WorldPoints(node.positions, placement), loops := WorldLoops(node.loops, placement),
          vector := WorldVector(node.vector, placement), sweep := WorldSweep(node.sweep, placement),
          planes := WorldPlanes(node.planes, placement))
  }

  /** The request in local coordinates, without the ids of its objects. */
  function Localized(request: Request, placement: Frame): Request {
    request.(
      id := 0,
      nodes := seq(|request.nodes|, (i: nat) requires i < |request.nodes| => LocalNode(request.nodes[i], placement)))
  }

  /** The request placed in the world. */
  function Moved(request: Request, placement: Frame): Request {
    request.(
      nodes := seq(|request.nodes|, (i: nat) requires i < |request.nodes| => MovedNode(request.nodes[i], placement)))
  }

  function Anonymous(request: Request): Request {
    request.(
      id := 0,
      nodes := seq(|request.nodes|, (i: nat) requires i < |request.nodes| => request.nodes[i].(id := 0)))
  }

  lemma NodeReturns(node: ShapeNode, placement: Frame)
    requires IsRigid(placement)
    ensures MovedNode(LocalNode(node, placement), placement) == node.(id := 0)
  {
    hide IsRigid, LocalPoints, WorldPoints, LocalLoops, WorldLoops, LocalSweep, WorldSweep, LocalPlanes;
    hide WorldPlanes, LocalVector, WorldVector;
    PointsReturn(node.positions, placement);
    LoopsReturn(node.loops, placement);
    VectorReturns(node.vector, placement);
    SweepReturns(node.sweep, placement);
    PlanesReturn(node.planes, placement);
  }

  /** Placing a localised request back returns it, up to the ids of its objects. */
  lemma RequestReturns(request: Request, placement: Frame)
    requires IsRigid(placement)
    ensures Moved(Localized(request, placement), placement) == Anonymous(request)
  {
    hide IsRigid, LocalNode, MovedNode;
    var back, plain := Moved(Localized(request, placement), placement), Anonymous(request);
    forall i | 0 <= i < |request.nodes| ensures back.nodes[i] == plain.nodes[i] {
      NodeReturns(request.nodes[i], placement);
    }
    assert back.nodes == plain.nodes;
  }

  method LocalizeLoops(loops: seq<seq<Vec>>, placement: Frame) returns (local: seq<seq<Vec>>)
    ensures local == LocalLoops(loops, placement)
  {
    hide LocalPoints;
    local := [];
    for i := 0 to |loops|
      invariant |local| == i && forall k :: 0 <= k < i ==> local[k] == LocalPoints(loops[k], placement)
    {
      var points := LocalizePoints(loops[i], placement);
      local := local + [points];
    }
  }

  method LocalizeSweep(sweep: seq<seq<seq<Vec>>>, placement: Frame) returns (local: seq<seq<seq<Vec>>>)
    ensures local == LocalSweep(sweep, placement)
  {
    hide LocalLoops;
    local := [];
    for i := 0 to |sweep|
      invariant |local| == i && forall k :: 0 <= k < i ==> local[k] == LocalLoops(sweep[k], placement)
    {
      var sections := LocalizeLoops(sweep[i], placement);
      local := local + [sections];
    }
  }

  method LocalizePlanes(planes: seq<HalfSpace>, placement: Frame) returns (local: seq<HalfSpace>)
    ensures local == LocalPlanes(planes, placement)
  {
    hide LocalPoint, LocalVector;
    local := [];
    for i := 0 to |planes|
      invariant |local| == i
      invariant forall k :: 0 <= k < i ==>
        local[k] == HalfSpace(LocalPoint(planes[k].origin, placement), LocalVector(planes[k].normal, placement))
    {
      local := local + [HalfSpace(LocalPoint(planes[i].origin, placement), LocalVector(planes[i].normal, placement))];
    }
  }

  /** Localises every part of a request. */
  method Localize(request: Request, placement: Frame) returns (local: Request)
    ensures local == Localized(request, placement)
  {
    hide LocalPoints, LocalLoops, LocalSweep, LocalPlanes, LocalVector;
    var nodes: seq<ShapeNode> := [];
    for i := 0 to |request.nodes|
      invariant |nodes| == i && forall k :: 0 <= k < i ==> nodes[k] == LocalNode(request.nodes[k], placement)
    {
      var node := request.nodes[i];
      var positions := LocalizePoints(node.positions, placement);
      var loops := LocalizeLoops(node.loops, placement);
      var sweep := LocalizeSweep(node.sweep, placement);
      var planes := LocalizePlanes(node.planes, placement);
      nodes := nodes + [ShapeNode(0, positions, node.indices, loops, LocalVector(node.vector, placement),
                                  sweep, node.circular,
                                  planes, node.unions, node.subtracts)];
    }
    return Request(0, nodes, request.linear, request.angular);
  }

  // ----- Requests relative to a point -----

  /** The frame of a point with the world's axes. */
  function At(origin: Vec): Frame {
    Frame(origin, Vec(1.0, 0.0, 0.0), Vec(0.0, 1.0, 0.0), Vec(0.0, 0.0, 1.0))
  }

  lemma AtIsRigid(origin: Vec)
    ensures IsRigid(At(origin))
  {
    hide IsRigid, Orthonormal, Det;
    WorldAxes();
    Rigid(At(origin));
  }

  lemma WorldAxes()
    ensures Orthonormal(Vec(1.0, 0.0, 0.0), Vec(0.0, 1.0, 0.0), Vec(0.0, 0.0, 1.0))
    ensures Det(Vec(1.0, 0.0, 0.0), Vec(0.0, 1.0, 0.0), Vec(0.0, 0.0, 1.0)) == 1.0
  {
    assert Cross(Vec(0.0, 1.0, 0.0), Vec(0.0, 0.0, 1.0)) == Vec(1.0, 0.0, 0.0);
  }

  lemma Rigid(placement: Frame)
    requires Orthonormal(placement.xAxis, placement.yAxis, placement.zAxis)
    requires Det(placement.xAxis, placement.yAxis, placement.zAxis) == 1.0
    ensures IsRigid(placement)
  {
    hide Orthonormal, Det;
  }

  function FirstPoint(loops: seq<seq<Vec>>): Option<Vec> {
    if loops == [] then None else if loops[0] != [] then Some(loops[0][0]) else FirstPoint(loops[1..])
  }

  function FirstOfSweep(sweep: seq<seq<seq<Vec>>>): Option<Vec> {
    if sweep == [] then None
    else if FirstPoint(sweep[0]).Some? then FirstPoint(sweep[0]) else FirstOfSweep(sweep[1..])
  }

  /** The first point of the root: of its mesh, else of its prism, else of its sweep. */
  function OriginOf(request: Request): Vec {
    if request.nodes == [] then Vec(0.0, 0.0, 0.0)
    else
      var root := request.nodes[0];
      if root.positions != [] then root.positions[0]
      else if FirstPoint(root.loops).Some? then FirstPoint(root.loops).value
      else if FirstOfSweep(root.sweep).Some? then FirstOfSweep(root.sweep).value
      else Vec(0.0, 0.0, 0.0)
  }
}
