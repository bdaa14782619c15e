/**
 What a request graph means: sharing nodes does not change the expression the root stands
 for, and no path of the graph returns to its start.
 */
module OperationMeaning {
  import opened OperationGraph
  import opened OperationPlans
  import opened SweepTrim
  import opened Wrappers

  /** A solid as an expression over bases; the kernel is a function of it. */
  datatype Expr = Expr(id: Id, base: Base, unions: seq<Expr>, subtracts: seq<Expr>, planes: seq<Plane>)

  // ----- The unshared expansion of the operation relation -----

  ghost function ChamferLeaves(operands: seq<Operand>): seq<Expr> {
    if operands == [] then []
    else
      var last := operands[|operands| - 1];
      ChamferLeaves(operands[..|operands| - 1])
      + [Expr(last.id, MeshBase(last.mesh.mesh.positions, last.mesh.mesh.indices), [], [], [])]
  }

  ghost function DirectPlanes(env: Environment, id: Id, mesh: SweptMesh): seq<Plane>
    requires mesh.mesh.positions != []
  {
    KeptPlanes(PlanesOf(env, Midpoint(BoundsOf(mesh.mesh.positions)), OperationsOf(env, id)))
  }

  /** Every operand expanded where it is used, to a bounded depth; `None` when that is not deep enough. */
  ghost function Expand(env: Environment, id: Id, mesh: SweptMesh, base: Base, fuel: nat): Option<Expr>
    decreases fuel, 0
  {
    if fuel == 0 || mesh.mesh.positions == [] then None
    else if OperationsOf(env, id) == [] then Some(Expr(id, base, [], [], []))
    else
      var unions, subtracts :=
          ExpandAll(env, AdditionsOf(env, id, mesh), fuel - 1), ExpandAll(env, CuttersOf(env, id, mesh), fuel - 1);
      if unions.None? || subtracts.None? then None
      else
        Some(Expr(id, base, unions.value,
                  subtracts.value + ChamferLeaves(ChamfersOf(env, id, mesh, OperationsOf(env, id))),
                  DirectPlanes(env, id, mesh)))
  }

  ghost function ExpandAll(env: Environment, operands: seq<Operand>, fuel: nat): Option<seq<Expr>>
    decreases fuel, |operands| + 1
  {
    if operands == [] then Some([])
    else
      var last := operands[|operands| - 1];
      var before := ExpandAll(env, operands[..|operands| - 1], fuel);
      var expr := Expand(env, last.id, last.mesh, SourceOf(env, last.id, last.mesh), fuel);
      if before.None? || expr.None? then None else Some(before.value + [expr.value])
  }

  /** Recognised by its sweep, else by its prism, and by its mesh when it has neither or all are to be faceted. */
  ghost predicate IsBaseOf(env: Environment, operand: Operand, base: Base) {
    var sweep, prism := env.sweepForm(operand.id, operand.mesh), env.prismForm(operand.id, operand.mesh);
    match base
    case RuledBase(form) => !env.faceted && sweep == Some(form)
    case PrismBase(form) => !env.faceted && sweep.None? && prism == Some(form)
    case MeshBase(positions, indices) =>
      && (env.faceted || (sweep.None? && prism.None?))
      && positions == operand.mesh.mesh.positions && indices == operand.mesh.mesh.indices
    case RootBase(_) => false
  }

  /** The expansion of a list of operands has one expression for each, in order, over the base it is recognised by. */
  lemma {:induction false} OperandBases(env: Environment, operands: seq<Operand>, fuel: nat, k: nat)
    requires ExpandAll(env, operands, fuel).Some? && k < |operands|
    ensures var all := ExpandAll(env, operands, fuel).value;
      |all| == |operands| && all[k].id == operands[k].id && IsBaseOf(env, operands[k], all[k].base)
  {
    hide AdditionsOf, CuttersOf, ChamfersOf, DirectPlanes;
    var n := |operands| - 1;
    if k < n {
      OperandBases(env, operands[..n], fuel, k);
    } else if n > 0 {
      OperandBases(env, operands[..n], fuel, 0);
    }
  }

  // ----- The expression a completed node stands for -----

  ghost function Denote(nodes: seq<Node>, marks: seq<Mark>, clock: nat, i: nat): Expr
    requires Acyclic(nodes, marks, clock) && i < |nodes| && marks[i].rank.Some?
    decreases marks[i].rank.value, |nodes[i].unions| + |nodes[i].subtracts| + 1
  {
    assert Ordered(nodes, marks, clock, i);
    Expr(nodes[i].id, nodes[i].base,
         DenoteAll(nodes, marks, clock, nodes[i].unions, marks[i].rank.value),
         DenoteAll(nodes, marks, clock, nodes[i].subtracts, marks[i].rank.value), nodes[i].planes)
  }

  ghost function DenoteAll(nodes: seq<Node>, marks: seq<Mark>, clock: nat, children: seq<nat>,
                           rank: nat): (r: seq<Expr>)
    requires Acyclic(nodes, marks, clock) && AllBefore(marks, children, Some(rank))
    ensures |r| == |children|
    decreases rank, |children|
  {
    if children == [] then []
    else
      var last := children[|children| - 1];
      assert Before(marks, last, Some(rank));
      DenoteAll(nodes, marks, clock, children[..|children| - 1], rank) + [Denote(nodes, marks, clock, last)]
  }

  // ----- Sharing preserves meaning -----

  /** The same operands, chamfers and planes follow from both meshes. */
  ghost predicate SamePlan(env: Environment, id: Id, a: SweptMesh, b: SweptMesh)
    requires a.mesh.positions != [] && b.mesh.positions != []
  {
    && AdditionsOf(env, id, a) == AdditionsOf(env, id, b) && CuttersOf(env, id, a) == CuttersOf(env, id, b)
    && ChamfersOf(env, id, a, OperationsOf(env, id)) == ChamfersOf(env, id, b, OperationsOf(env, id))
    && DirectPlanes(env, id, a) == DirectPlanes(env, id, b)
  }

  /** Meshes of an object with equal sources ask for the same operands, as equal meshes do. */
  ghost predicate SourcesDecide(env: Environment) {
    forall id, a: SweptMesh, b: SweptMesh ::
        a.mesh.positions != [] && b.mesh.positions != [] && SourceOf(env, id, a) == SourceOf(env, id, b) ==>
      SamePlan(env, id, a, b)
  }

  /** The weakest case: sources that decide the mesh decide the plan. */
  lemma EqualMeshesDecide(env: Environment)
    requires forall id, a: SweptMesh, b: SweptMesh :: SourceOf(env, id, a) == SourceOf(env, id, b) ==> a == b
    ensures SourcesDecide(env)
  {
    hide SourceOf, AdditionsOf, CuttersOf, ChamfersOf, DirectPlanes;
  }

  /** A completed node of an exact graph stands for the unshared expansion, at every sufficient depth. */
  lemma {:induction false} NodeMeansExpansion(env: Environment, nodes: seq<Node>, marks: seq<Mark>, clock: nat, i: nat,
                                              mesh: SweptMesh, fuel: nat)
    requires WellBehaved(env) && SourcesDecide(env) && Acyclic(nodes, marks, clock) && AllExact(env, nodes, marks)
    requires i < |nodes| && marks[i].rank.Some? && !marks[i].chamfer && fuel > marks[i].rank.value
    requires mesh.mesh.positions != [] && marks[i].mesh.mesh.positions != []
    requires SamePlan(env, nodes[i].id, mesh, marks[i].mesh)
    ensures Expand(env, nodes[i].id, mesh, nodes[i].base, fuel) == Some(Denote(nodes, marks, clock, i))
    decreases marks[i].rank.value, |nodes[i].unions| + |nodes[i].subtracts| + 1
  {
    hide SourceOf, AdditionsOf, CuttersOf, ChamfersOf, KeptPlanes, PlanesOf, Midpoint, BoundsOf, WellBehaved;
    hide SourcesDecide, Acyclic, AllExact, ChamferLeaves, AreOperands, AreChamfers, AllSolid;
    OrderedAt(nodes, marks, clock, i);
    var node, rank, own := nodes[i], marks[i].rank.value, marks[i].mesh;
    ExactAt(env, nodes, marks, i);
    if OperationsOf(env, node.id) == [] {
      assert DenoteAll(nodes, marks, clock, [], rank) == [];
    } else {
      var cutters := |CuttersOf(env, node.id, own)|;
      var cut, carved := node.subtracts[..cutters], node.subtracts[cutters..];
      assert node.subtracts == cut + carved;
      Parts(marks, cut, carved, node.subtracts, rank);
      OperandsAreSolid(env, node.id, own);
      OperandsMeanExpansion(env, nodes, marks, clock, node.unions, AdditionsOf(env, node.id, own), rank, fuel - 1);
      OperandsMeanExpansion(env, nodes, marks, clock, cut, CuttersOf(env, node.id, own), rank, fuel - 1);
      ChamfersMeanLeaves(nodes, marks, clock, carved, ChamfersOf(env, node.id, own, OperationsOf(env, node.id)), rank);
      DenoteConcat(nodes, marks, clock, cut, carved, rank);
    }
  }

  lemma {:induction false} OperandsMeanExpansion(env: Environment, nodes: seq<Node>, marks: seq<Mark>, clock: nat,
                                                 children: seq<nat>, operands: seq<Operand>, rank: nat, fuel: nat)
    requires WellBehaved(env) && SourcesDecide(env) && Acyclic(nodes, marks, clock) && AllExact(env, nodes, marks)
    requires AllBefore(marks, children, Some(rank)) && AreOperands(env, nodes, marks, children, operands)
    requires AllSolid(operands)
    requires fuel >= rank
    ensures ExpandAll(env, operands, fuel) == Some(DenoteAll(nodes, marks, clock, children, rank))
    decreases rank, |children|
  {
    hide SourceOf, WellBehaved, Acyclic, AllExact, Expand, SamePlan;
    if children != [] {
      var n := |children| - 1;
      var c, operand := children[n], operands[n];
      assert Before(marks, c, Some(rank)) && IsOperand(env, nodes, marks, c, operand);
      assert AllBefore(marks, children[..n], Some(rank))
          && AreOperands(env, nodes, marks, children[..n], operands[..n]);
      OperandsMeanExpansion(env, nodes, marks, clock, children[..n], operands[..n], rank, fuel);
      SolidNode(env, nodes, marks, c);
      assert SamePlan(env, operand.id, operand.mesh, marks[c].mesh);
      NodeMeansExpansion(env, nodes, marks, clock, c, operand.mesh, fuel);
    }
  }

  lemma {:induction false} ChamfersMeanLeaves(nodes: seq<Node>, marks: seq<Mark>, clock: nat, children: seq<nat>,
                                              operands: seq<Operand>, rank: nat)
    requires Acyclic(nodes, marks, clock) && AllBefore(marks, children, Some(rank))
    requires AreChamfers(nodes, marks, children, operands)
    ensures DenoteAll(nodes, marks, clock, children, rank) == ChamferLeaves(operands)
    decreases |children|
  {
    hide Acyclic;
    if children != [] {
      var n := |children| - 1;
      assert Before(marks, children[n], Some(rank)) && IsChamfer(nodes, marks, children[n], operands[n]);
      assert AllBefore(marks, children[..n], Some(rank)) && AreChamfers(nodes, marks, children[..n], operands[..n]);
      ChamfersMeanLeaves(nodes, marks, clock, children[..n], operands[..n], rank);
      LeafDenotes(nodes, marks, clock, children[n]);
    }
  }

  lemma LeafDenotes(nodes: seq<Node>, marks: seq<Mark>, clock: nat, i: nat)
    requires Acyclic(nodes, marks, clock) && i < |nodes| && marks[i].rank.Some? && nodes[i].unions == []
    requires nodes[i].subtracts == []
    ensures Denote(nodes, marks, clock, i) == Expr(nodes[i].id, nodes[i].base, [], [], nodes[i].planes)
  {
  }

  lemma {:induction false} DenoteConcat(nodes: seq<Node>, marks: seq<Mark>, clock: nat, a: seq<nat>, b: seq<nat>,
                                        rank: nat)
    requires Acyclic(nodes, marks, clock) && AllBefore(marks, a, Some(rank)) && AllBefore(marks, b, Some(rank))
    requires AllBefore(marks, a + b, Some(rank))
    ensures DenoteAll(nodes, marks, clock, a + b, rank)
              == DenoteAll(nodes, marks, clock, a, rank) + DenoteAll(nodes, marks, clock, b, rank)
    decreases |b|
  {
    hide Acyclic, Denote;
    if b == [] {
      assert a + b == a;
    } else {
      var n := |b| - 1;
      assert (a + b)[..|a| + n] == a + b[..n] && (a + b)[|a| + n] == b[n];
      Parts(marks, a + b[..n], [b[n]], a + b, rank);
      Parts(marks, b[..n], [b[n]], b, rank);
      assert Before(marks, b[n], Some(rank));
      DenoteConcat(nodes, marks, clock, a, b[..n], rank);
    }
  }

  lemma Parts(marks: seq<Mark>, a: seq<nat>, b: seq<nat>, all: seq<nat>, rank: nat)
    requires all == a + b && AllBefore(marks, all, Some(rank))
    ensures AllBefore(marks, a, Some(rank)) && AllBefore(marks, b, Some(rank))
  {
    forall j | 0 <= j < |a| ensures Before(marks, a[j], Some(rank)) { assert Before(marks, all[j], Some(rank)); }
    forall j | 0 <= j < |b| ensures Before(marks, b[j], Some(rank)) { assert Before(marks, all[|a| + j], Some(rank)); }
  }

  lemma ExactAt(env: Environment, nodes: seq<Node>, marks: seq<Mark>, i: nat)
    requires AllExact(env, nodes, marks) && i < |nodes| && marks[i].rank.Some?
    ensures Exact(env, nodes, marks, i)
  {
    hide Exact;
  }

  lemma SolidNode(env: Environment, nodes: seq<Node>, marks: seq<Mark>, i: nat)
    requires AllExact(env, nodes, marks) && i < |nodes| && marks[i].rank.Some? && !marks[i].chamfer
    ensures marks[i].mesh.mesh.positions != []
  {
    hide AdditionsOf, CuttersOf, ChamfersOf, KeptPlanes, PlanesOf, BoundsOf, AreOperands, AreChamfers;
    assert Exact(env, nodes, marks, i);
  }

  lemma OrderedAt(nodes: seq<Node>, marks: seq<Mark>, clock: nat, i: nat)
    requires Acyclic(nodes, marks, clock) && i < |nodes|
    ensures |nodes| == |marks| && Ordered(nodes, marks, clock, i)
  {
  }

  // ----- No cycles -----

  predicate HasEdge(nodes: seq<Node>, i: nat, c: nat) {
    i < |nodes| && (c in nodes[i].unions || c in nodes[i].subtracts)
  }

  ghost predicate IsPath(nodes: seq<Node>, path: seq<nat>) {
    |path| >= 2 && forall k :: 0 <= k < |path| - 1 ==> HasEdge(nodes, path[k], path[k + 1])
  }

  lemma EdgeDescends(nodes: seq<Node>, marks: seq<Mark>, clock: nat, i: nat, c: nat)
    requires Acyclic(nodes, marks, clock) && HasEdge(nodes, i, c)
    ensures Before(marks, c, marks[i].rank)
  {
    assert Ordered(nodes, marks, clock, i);
    if c in nodes[i].unions {
      var j :| 0 <= j < |nodes[i].unions| && nodes[i].unions[j] == c;
      assert Before(marks, nodes[i].unions[j], marks[i].rank);
    } else {
      var j :| 0 <= j < |nodes[i].subtracts| && nodes[i].subtracts[j] == c;
      assert Before(marks, nodes[i].subtracts[j], marks[i].rank);
    }
  }

  /** Every path ends at a completed node, completed before its start was. */
  lemma {:induction false} PathDescends(nodes: seq<Node>, marks: seq<Mark>, clock: nat, path: seq<nat>)
    requires Acyclic(nodes, marks, clock) && IsPath(nodes, path)
    ensures path[0] < |nodes| && Before(marks, path[|path| - 1], marks[path[0]].rank) && path[0] != path[|path| - 1]
    decreases |path|
  {
    var n := |path| - 1;
    assert HasEdge(nodes, path[n - 1], path[n]) && HasEdge(nodes, path[0], path[1]);
    EdgeDescends(nodes, marks, clock, path[n - 1], path[n]);
    if n > 1 {
      assert IsPath(nodes, path[..n]) by {
        forall k | 0 <= k < n - 1 ensures HasEdge(nodes, path[..n][k], path[..n][k + 1]) {
          assert HasEdge(nodes, path[k], path[k + 1]);
        }
      }
      PathDescends(nodes, marks, clock, path[..n]);
    }
  }

  // ----- Building a request -----

  /**
   Builds the request of one object. A successful root is node zero; when no limit, cycle or
   depth cut was hit and sources decide plans, the root stands for the unshared expansion.
   A request fails only for a mesh or an operation list beyond the limits, or for want of room
   for an edge chamfer of the root.
   */
  method BuildRequest(env: Environment, id: Id, mesh: SweptMesh) returns (outcome: Outcome, graph: Graph)
    requires WellBehaved(env) && mesh.mesh.positions != []
    ensures graph.Valid() && graph.active == {} && graph.env == env
    ensures outcome.Found? ==> outcome.index == 0 && |graph.nodes| > 0 && graph.marks[0].rank.Some?
    ensures outcome.Failed? ==> graph.failures > 0 && outcome.error in {MeshLimit, EdgeLimit, GraphLimit}
    ensures outcome == Failed(MeshLimit) <==> 8 * (3 * |mesh.mesh.positions|) + 4 * |mesh.mesh.indices| > 268435456
    ensures outcome == Failed(EdgeLimit) <==>
              8 * (3 * |mesh.mesh.positions|) + 4 * |mesh.mesh.indices| <= 268435456
              && |OperationsOf(env, id)| > MAX_EDGES
    ensures outcome == Failed(GraphLimit) ==> Crowded(env, id, mesh, |graph.nodes|, graph.bytes)
    ensures graph.failures == 0 && SourcesDecide(env) ==>
              forall fuel :: fuel >= |graph.nodes| ==>
                Expand(env, id, mesh, RootBase(env.rootForm(id, mesh)), fuel)
                    == Some(Denote(graph.nodes, graph.marks, graph.clock, 0))
    ensures forall path :: IsPath(graph.nodes, path) ==> path[0] != path[|path| - 1]
    ensures |graph.nodes| <= MAX_NODES && EdgeTotal(graph.nodes) <= MAX_EDGES && Stored(graph.marks) <= MAX_BYTES
  {
    hide WellBehaved, SourcesDecide, AllExact, Acyclic, SharedTable, Quotas, Stored, Completed, WithinQuota;
    hide Expand, Denote, SamePlan, Storage, Crowded;
    StorageInBytes(mesh);
    graph := new Graph(env);
    outcome := graph.Append(id, mesh, 0);
    EdgesAreCharged(graph.nodes, graph.marks);
    if outcome.Found? && outcome.index != 0 { return Failed(NotRootZero), graph; }
    if graph.failures == 0 && SourcesDecide(env) {
      forall fuel: nat | fuel >= |graph.nodes|
        ensures Expand(env, id, mesh, RootBase(env.rootForm(id, mesh)), fuel)
                  == Some(Denote(graph.nodes, graph.marks, graph.clock, 0))
      {
        RankFits(graph.nodes, graph.marks, graph.clock, 0);
        SameMesh(env, id, mesh);
        NodeMeansExpansion(env, graph.nodes, graph.marks, graph.clock, 0, mesh, fuel);
      }
    }
    forall path | IsPath(graph.nodes, path) ensures path[0] != path[|path| - 1] {
      PathDescends(graph.nodes, graph.marks, graph.clock, path);
    }
  }

  /** Eight bytes for each of three coordinates of a vertex, and four for an index. */
  lemma StorageInBytes(mesh: SweptMesh)
    ensures Storage(mesh) == 8 * (3 * |mesh.mesh.positions|) + 4 * |mesh.mesh.indices|
  {
  }

  lemma SameMesh(env: Environment, id: Id, mesh: SweptMesh)
    requires mesh.mesh.positions != []
    ensures SamePlan(env, id, mesh, mesh)
  {
  }

  lemma RankFits(nodes: seq<Node>, marks: seq<Mark>, clock: nat, i: nat)
    requires Acyclic(nodes, marks, clock) && clock == Completed(marks) && i < |nodes| && marks[i].rank.Some?
    ensures marks[i].rank.value < |nodes|
  {
    assert Ordered(nodes, marks, clock, i);
  }
}
