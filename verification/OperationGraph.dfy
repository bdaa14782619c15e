/**
 The builder of Boolean-operation request graphs: recursive, with shared nodes, an active
 set against cycles, and limits on depth, nodes, edges and mesh bytes.
 */
module OperationGraph {
  import opened OperationPlans
  import opened Prisms
  import opened SweepTrim
  import opened Vectors
  import opened Wrappers

  const MAX_DEPTH: nat := 32
  const MAX_NODES: nat := 4096
  const MAX_EDGES: nat := 65536
  const MAX_BYTES: nat := 268435456

  datatype Node = Node(id: Id, base: Base, unions: seq<nat>, subtracts: seq<nat>, planes: seq<Plane>)

  datatype Error = DepthLimit | Cycle | NodeLimit | MeshLimit | EdgeLimit | GraphLimit | NotRootZero

  datatype Outcome = Found(index: nat) | Failed(error: Error)

  function Storage(mesh: SweptMesh): nat {
    24 * |mesh.mesh.positions| + 4 * |mesh.mesh.indices|
  }

  /**
   What the proof remembers of a node: the moment it was completed, the mesh it was made
   from, whether it is an edge chamfer, and how many edges were charged for it.
   */
  datatype Mark = Mark(rank: Option<nat>, mesh: SweptMesh, chamfer: bool, quota: nat)

  // ----- Every edge leads to a node completed earlier -----

  ghost predicate Before(marks: seq<Mark>, child: nat, rank: Option<nat>) {
    child < |marks| && marks[child].rank.Some? && (rank.Some? ==> marks[child].rank.value < rank.value)
  }

  ghost predicate AllBefore(marks: seq<Mark>, children: seq<nat>, rank: Option<nat>) {
    forall j :: 0 <= j < |children| ==> Before(marks, children[j], rank)
  }

  ghost predicate Ordered(nodes: seq<Node>, marks: seq<Mark>, clock: nat, i: nat)
    requires |nodes| == |marks| && i < |nodes|
  {
    && (marks[i].rank.Some? ==> marks[i].rank.value < clock)
    && AllBefore(marks, nodes[i].unions, marks[i].rank) && AllBefore(marks, nodes[i].subtracts, marks[i].rank)
  }

  ghost predicate Acyclic(nodes: seq<Node>, marks: seq<Mark>, clock: nat) {
    |nodes| == |marks| && forall i :: 0 <= i < |nodes| ==> Ordered(nodes, marks, clock, i)
  }

  // ----- Shared nodes -----

  ghost predicate Shareable(env: Environment, nodes: seq<Node>, marks: seq<Mark>, c: nat) {
    && c < |nodes| == |marks| && marks[c].rank.Some? && !marks[c].chamfer
    && nodes[c].base == SourceOf(env, nodes[c].id, marks[c].mesh)
  }

  ghost predicate AllShareable(env: Environment, nodes: seq<Node>, marks: seq<Mark>, list: seq<nat>) {
    forall k :: 0 <= k < |list| ==> Shareable(env, nodes, marks, list[k])
  }

  ghost predicate SharedTable(env: Environment, nodes: seq<Node>, marks: seq<Mark>, shared: map<nat, seq<nat>>) {
    forall hash :: hash in shared ==> AllShareable(env, nodes, marks, shared[hash])
  }

  // ----- Budgets -----

  function Quotas(marks: seq<Mark>): nat {
    if marks == [] then 0 else Quotas(marks[..|marks| - 1]) + marks[|marks| - 1].quota
  }

  /** How many nodes are completed. */
  function Completed(marks: seq<Mark>): (n: nat)
    ensures n <= |marks|
  {
    if marks == [] then 0 else Completed(marks[..|marks| - 1]) + if marks[|marks| - 1].rank.Some? then 1 else 0
  }

  function Stored(marks: seq<Mark>): nat {
    if marks == [] then 0 else Stored(marks[..|marks| - 1]) + Storage(marks[|marks| - 1].mesh)
  }

  ghost predicate WithinQuota(nodes: seq<Node>, marks: seq<Mark>) {
    |nodes| == |marks| && forall i :: 0 <= i < |nodes| ==> |nodes[i].unions| + |nodes[i].subtracts| <= marks[i].quota
  }

  function EdgeTotal(nodes: seq<Node>): nat {
    if nodes == [] then 0
    else EdgeTotal(nodes[..|nodes| - 1]) + |nodes[|nodes| - 1].unions| + |nodes[|nodes| - 1].subtracts|
  }

  /** The edges of a graph are never more than those charged for, and so never more than the edge limit. */
  lemma {:induction false} EdgesAreCharged(nodes: seq<Node>, marks: seq<Mark>)
    requires WithinQuota(nodes, marks)
    ensures EdgeTotal(nodes) <= Quotas(marks)
  {
    if nodes != [] {
      var n := |nodes| - 1;
      EdgesAreCharged(nodes[..n], marks[..n]);
      assert |nodes[n].unions| + |nodes[n].subtracts| <= marks[n].quota;
    }
  }

  // ----- What a completed node stands for -----

  ghost predicate IsOperand(env: Environment, nodes: seq<Node>, marks: seq<Mark>, c: nat, operand: Operand) {
    && c < |nodes| == |marks| && marks[c].rank.Some? && !marks[c].chamfer
    && nodes[c].id == operand.id && nodes[c].base == SourceOf(env, operand.id, operand.mesh)
    && nodes[c].base == SourceOf(env, operand.id, marks[c].mesh)
  }

  ghost predicate AreOperands(env: Environment, nodes: seq<Node>, marks: seq<Mark>, children: seq<nat>,
                              operands: seq<Operand>) {
    |children| == |operands| && forall j ::
        0 <= j < |children| ==> IsOperand(env, nodes, marks, children[j], operands[j])
  }

  ghost predicate IsChamfer(nodes: seq<Node>, marks: seq<Mark>, c: nat, operand: Operand) {
    && c < |nodes| == |marks| && marks[c].rank.Some? && marks[c].chamfer
    && nodes[c] == Node(operand.id, MeshBase(operand.mesh.mesh.positions, operand.mesh.mesh.indices), [], [], [])
  }

  ghost predicate AreChamfers(nodes: seq<Node>, marks: seq<Mark>, children: seq<nat>, operands: seq<Operand>) {
    |children| == |operands| && forall j :: 0 <= j < |children| ==> IsChamfer(nodes, marks, children[j], operands[j])
  }

  ghost predicate Exact(env: Environment, nodes: seq<Node>, marks: seq<Mark>, i: nat)
    requires i < |nodes| == |marks|
  {
    var node, mesh := nodes[i], marks[i].mesh;
    if marks[i].chamfer then node.unions == [] && node.subtracts == [] && node.planes == []
    else
      && mesh.mesh.positions != []
      && var operations := OperationsOf(env, node.id);
      if operations == [] then node.unions == [] && node.subtracts == [] && node.planes == []
      else
        var cutters := |CuttersOf(env, node.id, mesh)|;
        && AreOperands(env, nodes, marks, node.unions, AdditionsOf(env, node.id, mesh))
        && cutters <= |node.subtracts|
        && AreOperands(env, nodes, marks, node.subtracts[..cutters], CuttersOf(env, node.id, mesh))
        && AreChamfers(nodes, marks, node.subtracts[cutters..], ChamfersOf(env, node.id, mesh, operations))
        && node.planes == KeptPlanes(PlanesOf(env, Midpoint(BoundsOf(mesh.mesh.positions)), operations))
  }

  ghost predicate AllExact(env: Environment, nodes: seq<Node>, marks: seq<Mark>) {
    |nodes| == |marks| && forall i :: 0 <= i < |nodes| && marks[i].rank.Some? ==> Exact(env, nodes, marks, i)
  }

  // ----- Growth of the graph -----

  /** Completed nodes never change, and nodes are never removed. */
  ghost predicate Grows(nodes: seq<Node>, marks: seq<Mark>, nodes': seq<Node>, marks': seq<Mark>) {
    && |nodes| == |marks| <= |nodes'| == |marks'|
    && forall i :: 0 <= i < |nodes| && marks[i].rank.Some? ==> nodes'[i] == nodes[i] && marks'[i] == marks[i]
  }

  /** Nothing below the old length changes, except possibly the node under construction. */
  ghost predicate Keeps(nodes: seq<Node>, marks: seq<Mark>, nodes': seq<Node>, marks': seq<Mark>, except': nat) {
    && |nodes| == |marks| <= |nodes'| == |marks'|
    && forall i :: 0 <= i < |nodes| ==> (i != except' ==> nodes'[i] == nodes[i]) && marks'[i] == marks[i]
  }

  lemma OperandsGrow(env: Environment, nodes: seq<Node>, marks: seq<Mark>, nodes': seq<Node>, marks': seq<Mark>,
                     children: seq<nat>, operands: seq<Operand>)
    requires Grows(nodes, marks, nodes', marks') && AreOperands(env, nodes, marks, children, operands)
    ensures AreOperands(env, nodes', marks', children, operands)
  {
    hide SourceOf;
    forall j | 0 <= j < |children| ensures IsOperand(env, nodes', marks', children[j], operands[j]) {
      assert IsOperand(env, nodes, marks, children[j], operands[j]);
    }
  }

  lemma ChamfersGrow(nodes: seq<Node>, marks: seq<Mark>, nodes': seq<Node>, marks': seq<Mark>, children: seq<nat>,
                     operands: seq<Operand>)
    requires Grows(nodes, marks, nodes', marks') && AreChamfers(nodes, marks, children, operands)
    ensures AreChamfers(nodes', marks', children, operands)
  {
    forall j | 0 <= j < |children| ensures IsChamfer(nodes', marks', children[j], operands[j]) {
      assert IsChamfer(nodes, marks, children[j], operands[j]);
    }
  }

  lemma ExactGrows(env: Environment, nodes: seq<Node>, marks: seq<Mark>, nodes': seq<Node>, marks': seq<Mark>, i: nat)
    requires Grows(nodes, marks, nodes', marks') && i < |nodes| && Exact(env, nodes, marks, i)
    requires nodes'[i] == nodes[i] && marks'[i].mesh == marks[i].mesh && marks'[i].chamfer == marks[i].chamfer
    ensures Exact(env, nodes', marks', i)
  {
    hide AreOperands, AreChamfers, AdditionsOf, CuttersOf, ChamfersOf, PlanesOf, KeptPlanes, BoundsOf;
    var node, mesh := nodes[i], marks[i].mesh;
    if !marks[i].chamfer && OperationsOf(env, node.id) != [] {
      var cutters := |CuttersOf(env, node.id, mesh)|;
      OperandsGrow(env, nodes, marks, nodes', marks', node.unions, AdditionsOf(env, node.id, mesh));
      OperandsGrow(env, nodes, marks, nodes', marks', node.subtracts[..cutters], CuttersOf(env, node.id, mesh));
      ChamfersGrow(nodes, marks, nodes', marks', node.subtracts[cutters..],
          ChamfersOf(env, node.id, mesh, OperationsOf(env, node.id)));
    }
  }

  /** Completed nodes stay exact; only newly completed ones have to be shown so. */
  lemma AllExactGrows(env: Environment, nodes: seq<Node>, marks: seq<Mark>, nodes': seq<Node>, marks': seq<Mark>)
    requires Grows(nodes, marks, nodes', marks') && AllExact(env, nodes, marks)
    requires forall i :: 0 <= i < |nodes'| && marks'[i].rank.Some? && (i >= |nodes| || marks[i].rank.None?) ==>
        Exact(env, nodes', marks', i)
    ensures AllExact(env, nodes', marks')
  {
    hide Exact;
    forall i | 0 <= i < |nodes'| && marks'[i].rank.Some? ensures Exact(env, nodes', marks', i) {
      if i < |nodes| && marks[i].rank.Some? { ExactGrows(env, nodes, marks, nodes', marks', i); }
    }
  }

  lemma SharedGrows(env: Environment, nodes: seq<Node>, marks: seq<Mark>, nodes': seq<Node>, marks': seq<Mark>,
                    shared: map<nat, seq<nat>>)
    requires Grows(nodes, marks, nodes', marks') && SharedTable(env, nodes, marks, shared)
    ensures SharedTable(env, nodes', marks', shared)
  {
    hide SourceOf;
    forall hash | hash in shared ensures AllShareable(env, nodes', marks', shared[hash]) {
      assert AllShareable(env, nodes, marks, shared[hash]);
      forall k | 0 <= k < |shared[hash]| ensures Shareable(env, nodes', marks', shared[hash][k]) {
        assert Shareable(env, nodes, marks, shared[hash][k]);
      }
    }
  }

  /** Adding a node without edges, or adding an edge to a node under construction, keeps the order. */
  lemma OrderGrows(nodes: seq<Node>, marks: seq<Mark>, nodes': seq<Node>, marks': seq<Mark>, clock: nat, clock': nat,
                   except': nat)
    requires Acyclic(nodes, marks, clock) && clock <= clock' && |nodes'| == |marks'| && |nodes| <= |nodes'|
    requires forall i :: 0 <= i < |nodes| && i != except' ==> nodes'[i] == nodes[i]
    requires forall i :: 0 <= i < |nodes| && i != except' ==> marks'[i].rank == marks[i].rank
    requires forall i :: |nodes| <= i < |nodes'| ==> Ordered(nodes', marks', clock', i)
    requires except' < |nodes| ==> marks[except'].rank.None? && Ordered(nodes', marks', clock', except')
    ensures Acyclic(nodes', marks', clock')
  {
    forall i | 0 <= i < |nodes'| ensures Ordered(nodes', marks', clock', i) {
      if i < |nodes| && i != except' {
        assert Ordered(nodes, marks, clock, i);
        AllBeforeGrows(marks, marks', nodes[i].unions, marks[i].rank);
        AllBeforeGrows(marks, marks', nodes[i].subtracts, marks[i].rank);
      }
    }
  }

  lemma AllBeforeGrows(marks: seq<Mark>, marks': seq<Mark>, children: seq<nat>, rank: Option<nat>)
    requires |marks| <= |marks'| && forall i ::
        0 <= i < |marks| && marks[i].rank.Some? ==> marks'[i].rank == marks[i].rank
    requires AllBefore(marks, children, rank)
    ensures AllBefore(marks', children, rank)
  {
    forall j | 0 <= j < |children| ensures Before(marks', children[j], rank) {
      assert Before(marks, children[j], rank);
    }
  }

  lemma {:induction false} QuotasUpdate(marks: seq<Mark>, i: nat, mark: Mark)
    requires i < |marks| && mark.mesh == marks[i].mesh
    ensures Quotas(marks[i := mark]) == Quotas(marks) - marks[i].quota + mark.quota
    ensures Stored(marks[i := mark]) == Stored(marks)
    ensures mark.rank == marks[i].rank ==> Completed(marks[i := mark]) == Completed(marks)
    ensures mark.rank.Some? && marks[i].rank.None? ==> Completed(marks[i := mark]) == Completed(marks) + 1
  {
    var n := |marks| - 1;
    if i == n {
      assert marks[i := mark][..n] == marks[..n];
    } else {
      assert marks[i := mark][..n] == marks[..n][i := mark];
      QuotasUpdate(marks[..n], i, mark);
    }
  }

  lemma SumsSnoc(marks: seq<Mark>, mark: Mark)
    ensures Quotas(marks + [mark]) == Quotas(marks) + mark.quota
    ensures Stored(marks + [mark]) == Stored(marks) + Storage(mark.mesh)
    ensures Completed(marks + [mark]) == Completed(marks) + if mark.rank.Some? then 1 else 0
  {
    assert (marks + [mark])[..|marks|] == marks;
  }

  lemma KeepsGrows(nodes: seq<Node>, marks: seq<Mark>, nodes': seq<Node>, marks': seq<Mark>, except': nat)
    requires Keeps(nodes, marks, nodes', marks', except') && (except' < |nodes| ==> marks[except'].rank.None?)
    ensures Grows(nodes, marks, nodes', marks')
  {
  }

  lemma LeafIsExact(env: Environment, nodes: seq<Node>, marks: seq<Mark>, i: nat)
    requires i < |nodes| == |marks| && marks[i].mesh.mesh.positions != []
    requires nodes[i].unions == [] && nodes[i].subtracts == [] && nodes[i].planes == []
    requires OperationsOf(env, nodes[i].id) == []
    ensures Exact(env, nodes, marks, i)
  {
    hide AdditionsOf, CuttersOf, ChamfersOf, PlanesOf, KeptPlanes, AreOperands, AreChamfers, BoundsOf;
  }

  lemma WholeIsExact(env: Environment, nodes: seq<Node>, marks: seq<Mark>, i: nat, cut: seq<nat>, carved: seq<nat>)
    requires i < |nodes| == |marks| && marks[i].mesh.mesh.positions != [] && !marks[i].chamfer
    requires OperationsOf(env, nodes[i].id) != []
    requires AreOperands(env, nodes, marks, nodes[i].unions, AdditionsOf(env, nodes[i].id, marks[i].mesh))
    requires AreOperands(env, nodes, marks, cut, CuttersOf(env, nodes[i].id, marks[i].mesh))
    requires AreChamfers(nodes, marks, carved,
        ChamfersOf(env, nodes[i].id, marks[i].mesh, OperationsOf(env, nodes[i].id)))
    requires nodes[i].subtracts == cut + carved
    requires nodes[i].planes
               == KeptPlanes(PlanesOf(env, Midpoint(BoundsOf(marks[i].mesh.mesh.positions)),
                   OperationsOf(env, nodes[i].id)))
    ensures Exact(env, nodes, marks, i)
  {
    hide AdditionsOf, CuttersOf, ChamfersOf, PlanesOf, KeptPlanes, BoundsOf, IsOperand, IsChamfer;
    assert nodes[i].subtracts[..|cut|] == cut && nodes[i].subtracts[|cut|..] == carved;
  }

  /** One change to the graph: nodes are added at the end, or the one under construction changes. */
  ghost predicate Changes(nodes: seq<Node>, marks: seq<Mark>, nodes': seq<Node>, marks': seq<Mark>, clock: nat,
                          changed: nat) {
    && |nodes| == |marks| <= |nodes'| == |marks'|
    && (forall i :: 0 <= i < |nodes| && i != changed ==> nodes'[i] == nodes[i] && marks'[i] == marks[i])
    && (changed < |nodes| ==> marks[changed].rank.None? && Sound(nodes', marks', clock, changed))
    && (forall i :: |nodes| <= i < |nodes'| ==> Sound(nodes', marks', clock, i))
  }

  ghost predicate Sound(nodes: seq<Node>, marks: seq<Mark>, clock: nat, i: nat)
    requires i < |nodes| == |marks|
  {
    Ordered(nodes, marks, clock, i) && |nodes[i].unions| + |nodes[i].subtracts| <= marks[i].quota
  }

  lemma ChangeKeeps(env: Environment, nodes: seq<Node>, marks: seq<Mark>, nodes': seq<Node>, marks': seq<Mark>,
                    clock: nat, clock': nat, shared: map<nat, seq<nat>>, changed: nat)
    requires Acyclic(nodes, marks, clock) && WithinQuota(nodes, marks) && SharedTable(env, nodes, marks, shared)
    requires clock <= clock'
    requires Changes(nodes, marks, nodes', marks', clock', changed)
    ensures Acyclic(nodes', marks', clock') && WithinQuota(nodes', marks') && SharedTable(env, nodes', marks', shared)
    ensures Grows(nodes, marks, nodes', marks')
  {
    hide Ordered, SharedTable, Acyclic;
    forall i | 0 <= i < |nodes'| ensures i >= |nodes| ==> Ordered(nodes', marks', clock', i)
      ensures |nodes'[i].unions| + |nodes'[i].subtracts| <= marks'[i].quota
    {
      if i >= |nodes| || i == changed { assert Sound(nodes', marks', clock', i); }
    }
    OrderGrows(nodes, marks, nodes', marks', clock, clock', changed);
    SharedGrows(env, nodes, marks, nodes', marks', shared);
  }

  lemma BareIsSound(nodes: seq<Node>, marks: seq<Mark>, clock: nat, i: nat)
    requires i < |nodes| == |marks| && nodes[i].unions == [] && nodes[i].subtracts == []
    requires marks[i].rank.Some? ==> marks[i].rank.value < clock
    ensures Sound(nodes, marks, clock, i)
  {
  }

  function Extended(node: Node, children: seq<nat>, unions: bool): Node {
    if unions then node.(unions := node.unions + children) else node.(subtracts := node.subtracts + children)
  }

  lemma SoundAt(nodes: seq<Node>, marks: seq<Mark>, clock: nat, i: nat)
    requires Acyclic(nodes, marks, clock) && WithinQuota(nodes, marks) && i < |nodes|
    ensures Sound(nodes, marks, clock, i)
  {
    assert Ordered(nodes, marks, clock, i);
  }

  lemma SealedIsSound(nodes: seq<Node>, marks: seq<Mark>, marks': seq<Mark>, clock: nat, i: nat)
    requires clock > 0 && Acyclic(nodes, marks, clock - 1) && WithinQuota(nodes, marks) && i < |nodes|
    requires marks[i].rank.None? && marks' == marks[i := marks[i].(rank := Some(clock - 1))]
    ensures Sound(nodes, marks', clock, i)
  {
    SoundAt(nodes, marks, clock - 1, i);
    SealedBefore(nodes, marks, marks', clock, nodes[i].unions, i);
    SealedBefore(nodes, marks, marks', clock, nodes[i].subtracts, i);
  }

  lemma SealedBefore(nodes: seq<Node>, marks: seq<Mark>, marks': seq<Mark>, clock: nat, children: seq<nat>, i: nat)
    requires clock > 0 && Acyclic(nodes, marks, clock - 1) && i < |nodes| && marks[i].rank.None?
    requires marks' == marks[i := marks[i].(rank := Some(clock - 1))] && AllBefore(marks, children, None)
    ensures AllBefore(marks', children, Some(clock - 1))
  {
    forall j | 0 <= j < |children| ensures Before(marks', children[j], Some(clock - 1)) {
      assert Before(marks, children[j], None);
      assert Ordered(nodes, marks, clock - 1, children[j]);
    }
  }

  lemma Offered(env: Environment, nodes: seq<Node>, marks: seq<Mark>, shared: map<nat, seq<nat>>, hash: nat, i: nat)
    requires SharedTable(env, nodes, marks, shared) && Shareable(env, nodes, marks, i)
    ensures SharedTable(env, nodes, marks, shared[hash := (if hash in shared then shared[hash] else []) + [i]])
  {
    hide Shareable;
  }

  lemma MoreOperands(env: Environment, nodes: seq<Node>, marks: seq<Mark>, nodes': seq<Node>, marks': seq<Mark>,
                     children: seq<nat>, operands: seq<Operand>, k: nat, child: nat)
    requires Grows(nodes, marks, nodes', marks') && k < |operands|
    requires AreOperands(env, nodes, marks, children, operands[..k])
    requires IsOperand(env, nodes', marks', child, operands[k])
    ensures AreOperands(env, nodes', marks', children + [child], operands[..k + 1])
  {
    hide IsOperand;
    OperandsGrow(env, nodes, marks, nodes', marks', children, operands[..k]);
  }

  lemma MoreChamfers(nodes: seq<Node>, marks: seq<Mark>, nodes': seq<Node>, marks': seq<Mark>,
                     children: seq<nat>, operands: seq<Operand>, child: nat, operand: Operand)
    requires Grows(nodes, marks, nodes', marks') && AreChamfers(nodes, marks, children, operands)
    requires IsChamfer(nodes', marks', child, operand)
    ensures AreChamfers(nodes', marks', children + [child], operands + [operand])
  {
    hide IsChamfer;
    ChamfersGrow(nodes, marks, nodes', marks', children, operands);
  }

  lemma {:induction false} FewerChamfers(env: Environment, id: Id, mesh: SweptMesh, operations: seq<Operation>, k: nat)
    requires k <= |operations|
    ensures |ChamfersOf(env, id, mesh, operations[..k])| <= |ChamfersOf(env, id, mesh, operations)|
    decreases |operations| - k
  {
    if k == |operations| {
      assert operations[..k] == operations;
    } else {
      assert operations[..k + 1][..k] == operations[..k];
      FewerChamfers(env, id, mesh, operations, k + 1);
    }
  }

  lemma NoChamfers(nodes: seq<Node>, marks: seq<Mark>)
    ensures AreChamfers(nodes, marks, [], [])
  {
  }

  lemma NoPlane(env: Environment, middle: Vec, operation: Operation)
    requires operation.kind == EDGE_CHAMFER
    ensures PlaneOf(env, middle, operation).None?
  {
  }

  // ----- What stops the builder -----

  /** Another node of the given size is within the node and the byte limit. */
  predicate HasRoom(nodes: nat, bytes: nat, size: nat) {
    nodes < MAX_NODES && size + bytes <= MAX_BYTES
  }

  /** A node of the table, offered under the digest of the mesh, has the same object and source. */
  ghost predicate IsShared(env: Environment, nodes: seq<Node>, shared: map<nat, seq<nat>>, id: Id, mesh: SweptMesh) {
    var hash := env.digest(id, mesh);
    hash in shared && exists k :: 0 <= k < |shared[hash]| && HasSource(env, nodes, shared[hash][k], id, mesh)
  }

  ghost predicate HasSource(env: Environment, nodes: seq<Node>, c: nat, id: Id, mesh: SweptMesh) {
    c < |nodes| && nodes[c].id == id && nodes[c].base == SourceOf(env, id, mesh)
  }

  /** An edge chamfer of the object has no room left. */
  ghost predicate Crowded(env: Environment, id: Id, mesh: SweptMesh, nodes: nat, bytes: nat) {
    exists k :: 0 <= k < |OperationsOf(env, id)| && LacksRoom(env, id, mesh, OperationsOf(env, id)[k], nodes, bytes)
  }

  ghost predicate LacksRoom(env: Environment, id: Id, mesh: SweptMesh, operation: Operation, nodes: nat, bytes: nat) {
    && operation.kind == EDGE_CHAMFER && env.chamfer(id, mesh, operation.target).Some?
    && !HasRoom(nodes, bytes, Storage(env.chamfer(id, mesh, operation.target).value))
  }

  // ----- The builder -----

  class Graph {
    const env: Environment

    var active: set<Id>
    var shared: map<nat, seq<nat>>
    var nodes: seq<Node>
    var nodeCount: nat
    var edges: nat
    var bytes: nat
    var failures: nat
    var partials: nat

    ghost var marks: seq<Mark>
    ghost var clock: nat

    ghost predicate Valid()
      reads this
    {
      && WellBehaved(env) && |nodes| == |marks|
      && Acyclic(nodes, marks, clock) && clock == Completed(marks)
      && SharedTable(env, nodes, marks, shared)
      && nodeCount == |nodes| <= MAX_NODES
      && edges == Quotas(marks) <= MAX_EDGES && WithinQuota(nodes, marks)
      && bytes == Stored(marks) <= MAX_BYTES
      && (failures == 0 ==> AllExact(env, nodes, marks))
    }

    constructor (env: Environment)
      requires WellBehaved(env)
      ensures Valid() && this.env == env && nodes == [] && active == {} && failures == 0
      ensures shared == map[] && bytes == 0 && edges == 0
    {
      this.env := env;
      active, shared, nodes, nodeCount, edges, bytes, failures, partials := {}, map[], [], 0, 0, 0, 0, 0;
      marks, clock := [], 0;
    }

    /** The node found for an operand: completed, and made from the same source. */
    ghost predicate Answers(c: nat, id: Id, mesh: SweptMesh, depth: nat, before: nat)
      reads this
    {
      && c < |nodes| == |marks| && marks[c].rank.Some? && !marks[c].chamfer && nodes[c].id == id
      && (depth == 0 ==> c == before && nodes[c].base == RootBase(env.rootForm(id, mesh)) && marks[c].mesh == mesh)
      && (depth > 0 ==> IsOperand(env, nodes, marks, c, Operand(id, mesh, 0.0)))
    }

    /**
     What the outcome says about the limits: a shared node is always found; a new one is refused
     for want of nodes, bytes or edges exactly when they were wanting before, and otherwise only
     for an edge chamfer that has no room now.
     */
    ghost predicate Caused(outcome: Outcome, id: Id, mesh: SweptMesh, hit: bool, had: nat, stored: nat, charged: nat)
      reads this
    {
      var fits := HasRoom(had, stored, Storage(mesh));
      && (hit ==> outcome.Found?)
      && (outcome == Failed(NodeLimit) <==> !hit && had >= MAX_NODES)
      && (outcome == Failed(MeshLimit) <==> !hit && had < MAX_NODES && !fits)
      && (outcome == Failed(EdgeLimit) <==> !hit && fits && |OperationsOf(env, id)| + charged > MAX_EDGES)
      && (outcome.Failed? ==> outcome.error in {NodeLimit, MeshLimit, EdgeLimit, GraphLimit})
      && (outcome == Failed(GraphLimit) ==> Crowded(env, id, mesh, |nodes|, bytes))
    }

    /**
     Appends the node of one object and, below it, of its operands. Every exit leaves the
     active set as it was; a failure is always counted.
     */
    method Append(id: Id, mesh: SweptMesh, depth: nat) returns (outcome: Outcome)
      requires Valid() && mesh.mesh.positions != [] && depth <= MAX_DEPTH
      modifies this
      ensures Valid() && active == old(active)
      ensures Keeps(old(nodes), old(marks), nodes, marks, |nodes|) && failures >= old(failures) && clock >= old(clock)
      ensures outcome.Found? ==> Answers(outcome.index, id, mesh, depth, |old(nodes)|)
      ensures outcome.Failed? ==> failures > old(failures)
      ensures outcome == Failed(DepthLimit) <==> depth >= MAX_DEPTH
      ensures outcome == Failed(Cycle) <==> depth < MAX_DEPTH && id in old(active)
      ensures depth < MAX_DEPTH && id !in old(active) ==>
                Caused(outcome, id, mesh, depth > 0 && IsShared(env, old(nodes), old(shared), id, mesh),
                       |old(nodes)|, old(bytes), old(edges))
      ensures outcome.Found? && depth > 0 ==> IsShared(env, nodes, shared, id, mesh)
      ensures outcome.Found? && depth > 0 && IsShared(env, old(nodes), old(shared), id, mesh) ==> nodes == old(nodes)
      decreases MAX_DEPTH - depth, 4
    {
      hide Acyclic, SharedTable, Quotas, Stored, Completed, WithinQuota, AllExact, WellBehaved, Exact;
      hide SourceOf;
      hide IsShared, Storage, HasRoom, Crowded;
      if depth >= MAX_DEPTH {
        failures := failures + 1;
        return Failed(DepthLimit);
      }
      if id in active {
        failures := failures + 1;
        return Failed(Cycle);
      }
      active := active + {id};
      ghost var entered := active;
      outcome := AppendActive(id, mesh, depth);
      active := active - {id};
      assert active == old(active);
    }

    /** Looks for a node to share below the root, and appends a new one otherwise. */
    method AppendActive(id: Id, mesh: SweptMesh, depth: nat) returns (outcome: Outcome)
      requires Valid() && mesh.mesh.positions != [] && depth < MAX_DEPTH
      modifies this
      ensures Valid() && active == old(active)
      ensures Keeps(old(nodes), old(marks), nodes, marks, |nodes|) && failures >= old(failures) && clock >= old(clock)
      ensures outcome.Found? ==> Answers(outcome.index, id, mesh, depth, |old(nodes)|)
      ensures outcome.Failed? ==> failures > old(failures)
      ensures Caused(outcome, id, mesh, depth > 0 && IsShared(env, old(nodes), old(shared), id, mesh),
                     |old(nodes)|, old(bytes), old(edges))
      ensures outcome.Found? && depth > 0 ==> IsShared(env, nodes, shared, id, mesh)
      ensures outcome.Found? && depth > 0 && IsShared(env, old(nodes), old(shared), id, mesh) ==> nodes == old(nodes)
      decreases MAX_DEPTH - depth, 3
    {
      hide Acyclic, SharedTable, Quotas, Stored, Completed, WithinQuota, AllExact, WellBehaved;
      hide SourceOf, Storage, IsShared;
      var hash: Option<nat> := None;
      if depth > 0 {
        hash := Some(env.digest(id, mesh));
        var existing := FindShared(id, mesh, hash.value);
        if existing.Some? { return Found(existing.value); }
      }
      outcome := AppendNew(id, mesh, depth, hash);
    }

    /** Appends a new node and, below it, what the object's operations add. */
    method AppendNew(id: Id, mesh: SweptMesh, depth: nat, hash: Option<nat>) returns (outcome: Outcome)
      requires Valid() && mesh.mesh.positions != [] && depth < MAX_DEPTH
      requires hash == if depth > 0 then Some(env.digest(id, mesh)) else None
      modifies this
      ensures Valid() && active == old(active)
      ensures Keeps(old(nodes), old(marks), nodes, marks, |nodes|) && failures >= old(failures) && clock >= old(clock)
      ensures outcome.Found? ==> Answers(outcome.index, id, mesh, depth, |old(nodes)|)
      ensures outcome.Failed? ==> failures > old(failures)
      ensures Caused(outcome, id, mesh, false, |old(nodes)|, old(bytes), old(edges))
      ensures outcome.Found? && depth > 0 ==> IsShared(env, nodes, shared, id, mesh)
      decreases MAX_DEPTH - depth, 2
    {
      hide Acyclic, SharedTable, Quotas, Stored, Completed, WithinQuota, AllExact, WellBehaved, Exact, SourceOf;
      hide AdditionsOf, CuttersOf, ChamfersOf, PlanesOf, KeptPlanes, AreOperands, AreChamfers, Midpoint, BoundsOf;
      hide AllSolid, Ordered, Storage, IsShared, Crowded, HasRoom, HasSource, IsOperand;
      var index := |nodes|;
      var error := Enlist(id, mesh, if depth == 0 then RootBase(env.rootForm(id, mesh)) else SourceOf(env, id, mesh));
      if error.Some? { return Failed(error.value); }
      var operations := OperationsOf(env, id);
      if operations == [] {
        LeafIsExact(env, nodes, marks, index);
        Finish(index, id, mesh, hash);
        return Found(index);
      }
      if |operations| > MAX_EDGES - edges {
        failures := failures + 1;
        return Failed(EdgeLimit);
      }
      Charge(index, |operations|);
      var ok := Populate(index, id, mesh, depth);
      if !ok { return Failed(GraphLimit); }
      Finish(index, id, mesh, hash);
      return Found(index);
    }

    /** Completes a new node; below the root it can then be shared. */
    method Finish(index: nat, id: Id, mesh: SweptMesh, hash: Option<nat>)
      requires Valid() && index < |nodes| && nodes[index].id == id
      requires marks[index].rank.None? && !marks[index].chamfer && marks[index].mesh == mesh
      requires hash.Some? ==> hash.value == env.digest(id, mesh) && nodes[index].base == SourceOf(env, id, mesh)
      requires failures == 0 ==> Exact(env, nodes, marks, index)
      modifies this`shared, this`marks, this`clock
      ensures Valid()
      ensures marks == old(marks)[index := old(marks)[index].(rank := Some(old(clock)))] && clock == old(clock) + 1
      ensures hash.Some? ==> IsShared(env, nodes, shared, id, mesh)
      ensures hash.Some? ==> IsOperand(env, nodes, marks, index, Operand(id, mesh, 0.0))
    {
      hide Acyclic, SharedTable, Quotas, Stored, Completed, WithinQuota, AllExact, WellBehaved, Exact, SourceOf;
      Seal(index, hash);
      assert HasSource(env, nodes, index, id, mesh) <==> nodes[index].base == SourceOf(env, id, mesh);
    }

    /** Adds everything the operations of an object put below its node. */
    method Populate(index: nat, id: Id, mesh: SweptMesh, depth: nat) returns (ok: bool)
      requires Valid() && mesh.mesh.positions != [] && depth < MAX_DEPTH && OperationsOf(env, id) != []
      requires index < |nodes| && marks[index] == Mark(None, mesh, false, |OperationsOf(env, id)|)
      requires nodes[index].id == id && nodes[index].unions == [] && nodes[index].subtracts == []
      requires nodes[index].planes == []
      modifies this
      ensures Valid() && active == old(active)
      ensures Keeps(old(nodes), old(marks), nodes, marks, index) && failures >= old(failures) && clock >= old(clock)
      ensures nodes[index].id == id && nodes[index].base == old(nodes)[index].base
      ensures ok && failures == 0 ==> Exact(env, nodes, marks, index)
      ensures !ok ==> failures > old(failures) && Crowded(env, id, mesh, |nodes|, bytes)
      decreases MAX_DEPTH - depth, 1
    {
      hide Acyclic, SharedTable, Quotas, Stored, Completed, WithinQuota, AllExact, WellBehaved, Exact;
      hide SourceOf, AdditionsOf, CuttersOf, ChamfersOf, PlanesOf, KeptPlanes, AreOperands, AreChamfers;
      hide Midpoint, BoundsOf, AllSolid, Ordered, Storage;
      ChildrenAreFew(env, id, mesh);
      var additions, cutters, omitted := PlanOperands(env, id, mesh);
      partials := partials + omitted;
      var added := AppendOperands(index, additions, depth, true);
      ghost var midNodes, midMarks := nodes, marks;
      var cut := AppendOperands(index, cutters, depth, false);
      ghost var builtNodes, builtMarks := nodes, marks;
      var applied, planes, carved := ApplyDirect(index, id, mesh);
      if !applied { return false; }
      ghost var carvedNodes := nodes;
      KeepPlanes(index, planes);
      if failures == 0 {
        KeepsGrows(midNodes, midMarks, nodes, marks, index);
        KeepsGrows(builtNodes, builtMarks, nodes, marks, index);
        OperandsGrow(env, midNodes, midMarks, nodes, marks, added, additions);
        OperandsGrow(env, builtNodes, builtMarks, nodes, marks, cut, cutters);
        assert nodes[index].id == id && marks[index].mesh == mesh && nodes[index].unions == added;
        assert nodes[index].subtracts == cut + carved;
        ChamfersGrow(carvedNodes, marks, nodes, marks, carved, ChamfersOf(env, id, mesh, OperationsOf(env, id)));
        WholeIsExact(env, nodes, marks, index, cut, carved);
      }
      return true;
    }

    /** A node completed earlier for the same object and source, if the table offers one. */
    method FindShared(id: Id, mesh: SweptMesh, hash: nat) returns (existing: Option<nat>)
      requires Valid() && hash == env.digest(id, mesh)
      ensures existing.Some? <==> IsShared(env, nodes, shared, id, mesh)
      ensures existing.Some? ==> IsOperand(env, nodes, marks, existing.value, Operand(id, mesh, 0.0))
    {
      hide Acyclic, Quotas, Stored, Completed, WithinQuota, AllExact, WellBehaved, SourceOf;
      var source := SourceOf(env, id, mesh);
      if hash !in shared { return None; }
      var candidates := shared[hash];
      assert AllShareable(env, nodes, marks, candidates);
      for k := 0 to |candidates|
        invariant forall j :: 0 <= j < k ==> !HasSource(env, nodes, candidates[j], id, mesh)
      {
        assert Shareable(env, nodes, marks, candidates[k]);
        var node := nodes[candidates[k]];
        assert HasSource(env, nodes, candidates[k], id, mesh) <==> node.id == id && node.base == source;
        if node.id == id && node.base == source { return Some(candidates[k]); }
      }
      return None;
    }

    /** Adds an empty node when the node and byte limits allow it. */
    method Enlist(id: Id, mesh: SweptMesh, base: Base) returns (error: Option<Error>)
      requires Valid()
      modifies this
      ensures Valid() && active == old(active) && clock == old(clock) && edges == old(edges)
      ensures error.None? ==> failures == old(failures) && nodes == old(nodes) + [Node(id, base, [], [], [])]
      ensures error.None? ==> marks == old(marks) + [Mark(None, mesh, false, 0)]
      ensures error.Some? ==> failures > old(failures) && nodes == old(nodes) && marks == old(marks)
      ensures error.None? <==> HasRoom(|old(nodes)|, old(bytes), Storage(mesh))
      ensures error == Some(NodeLimit) <==> |old(nodes)| >= MAX_NODES
      ensures error.Some? ==> error.value in {NodeLimit, MeshLimit}
    {
      hide Quotas, Stored, Completed, WellBehaved, SharedTable, Acyclic, WithinQuota, AllExact, Storage;
      if nodeCount >= MAX_NODES {
        failures := failures + 1;
        return Some(NodeLimit);
      }
      var size := Storage(mesh);
      if size > MAX_BYTES - bytes {
        failures := failures + 1;
        return Some(MeshLimit);
      }
      Allocate(id, mesh, base);
      return None;
    }

    /** Adds an empty node that is still under construction. */
    method Allocate(id: Id, mesh: SweptMesh, base: Base)
      requires Valid() && nodeCount < MAX_NODES && Storage(mesh) <= MAX_BYTES - bytes
      modifies this`nodes, this`nodeCount, this`bytes, this`marks
      ensures Valid()
      ensures nodes == old(nodes) + [Node(id, base, [], [], [])] && marks == old(marks) + [Mark(None, mesh, false, 0)]
    {
      hide Quotas, Stored, Completed, WellBehaved, Exact, Storage, SharedTable, Sound, Acyclic, WithinQuota;
      hide AllExact;
      ghost var was, had := nodes, marks;
      bytes := bytes + Storage(mesh);
      nodeCount := nodeCount + 1;
      nodes := nodes + [Node(id, base, [], [], [])];
      marks := marks + [Mark(None, mesh, false, 0)];
      SumsSnoc(had, Mark(None, mesh, false, 0));
      BareIsSound(nodes, marks, clock, |was|);
      ChangeKeeps(env, was, had, nodes, marks, clock, clock, shared, |was|);
      if failures == 0 { AllExactGrows(env, was, had, nodes, marks); }
    }

    /** Charges a node under construction for all of its operations. */
    method Charge(index: nat, count: nat)
      requires Valid() && index < |nodes| == |marks| && marks[index].rank.None? && count <= MAX_EDGES - edges
      requires nodes[index].unions == [] && nodes[index].subtracts == [] && marks[index].quota == 0
      modifies this`edges, this`marks
      ensures Valid()
      ensures marks == old(marks)[index := old(marks)[index].(quota := count)]
    {
      hide Quotas, Stored, Completed, WellBehaved, Exact, Storage, SharedTable, Sound, Acyclic, WithinQuota;
      hide AllExact;
      ghost var had := marks;
      edges := edges + count;
      marks := marks[index := marks[index].(quota := count)];
      QuotasUpdate(had, index, had[index].(quota := count));
      BareIsSound(nodes, marks, clock, index);
      ChangeKeeps(env, nodes, had, nodes, marks, clock, clock, shared, index);
      if failures == 0 { AllExactGrows(env, nodes, had, nodes, marks); }
    }

    /** Adds one edge to a completed node. */
    method Link(index: nat, child: nat, unions: bool)
      requires Valid() && index < |nodes| == |marks| && marks[index].rank.None?
      requires child < |nodes| && marks[child].rank.Some?
      requires |nodes[index].unions| + |nodes[index].subtracts| < marks[index].quota
      modifies this`nodes
      ensures Valid()
      ensures nodes == old(nodes)[index := Extended(old(nodes)[index], [child], unions)]
    {
      hide Quotas, Stored, Completed, WellBehaved, Exact, Storage, SharedTable, Acyclic, WithinQuota;
      hide AllExact;
      ghost var was := nodes;
      if unions {
        nodes := nodes[index := nodes[index].(unions := nodes[index].unions + [child])];
      } else {
        nodes := nodes[index := nodes[index].(subtracts := nodes[index].subtracts + [child])];
      }
      SoundAt(was, marks, clock, index);
      ChangeKeeps(env, was, marks, nodes, marks, clock, clock, shared, index);
      if failures == 0 { AllExactGrows(env, was, marks, nodes, marks); }
    }

    method KeepPlanes(index: nat, candidates: seq<Candidate>)
      requires Valid() && index < |nodes| == |marks| && marks[index].rank.None? && nodes[index].planes == []
      modifies this`nodes
      ensures Valid()
      ensures nodes == old(nodes)[index := old(nodes)[index].(planes := KeptPlanes(candidates))]
    {
      hide Quotas, Stored, Completed, WellBehaved, Exact, Storage, SharedTable, Acyclic, WithinQuota;
      hide AllExact;
      ghost var was := nodes;
      var planes: seq<Plane> := [];
      for k := 0 to |candidates|
        invariant planes == KeptPlanes(candidates[..k])
      {
        assert candidates[..k + 1][..k] == candidates[..k];
        planes := planes + [candidates[k].plane];
      }
      assert candidates[..|candidates|] == candidates;
      nodes := nodes[index := nodes[index].(planes := planes)];
      SoundAt(was, marks, clock, index);
      ChangeKeeps(env, was, marks, nodes, marks, clock, clock, shared, index);
      if failures == 0 { AllExactGrows(env, was, marks, nodes, marks); }
    }

    /** Completes a node and, unless it is the root, offers it for sharing. */
    method Seal(index: nat, hash: Option<nat>)
      requires Valid() && index < |nodes| == |marks| && marks[index].rank.None? && !marks[index].chamfer
      requires hash.Some? ==> nodes[index].base == SourceOf(env, nodes[index].id, marks[index].mesh)
      requires failures == 0 ==> Exact(env, nodes, marks, index)
      modifies this`shared, this`marks, this`clock
      ensures Valid()
      ensures marks == old(marks)[index := old(marks)[index].(rank := Some(old(clock)))] && clock == old(clock) + 1
      ensures hash.Some? ==> hash.value in shared && index in shared[hash.value]
    {
      hide Quotas, Stored, Completed, WellBehaved, Exact, Storage, SharedTable, Acyclic, WithinQuota;
      hide AllExact, SourceOf, Sound;
      ghost var had, was := marks, shared;
      marks := marks[index := marks[index].(rank := Some(clock))];
      clock := clock + 1;
      QuotasUpdate(had, index, marks[index]);
      SealedIsSound(nodes, had, marks, clock, index);
      ChangeKeeps(env, nodes, had, nodes, marks, clock - 1, clock, shared, index);
      if failures == 0 {
        ExactGrows(env, nodes, had, nodes, marks, index);
        AllExactGrows(env, nodes, had, nodes, marks);
      }
      if hash.Some? {
        shared := shared[hash.value := (if hash.value in shared then shared[hash.value] else []) + [index]];
        Offered(env, nodes, marks, was, hash.value, index);
      }
    }

    /** Appends the nodes of a list of operands and links those that succeed to their host. */
    method AppendOperands(index: nat, operands: seq<Operand>, depth: nat, unions: bool)
      returns (ghost children: seq<nat>)
      requires Valid() && depth < MAX_DEPTH && AllSolid(operands)
      requires index < |nodes| == |marks| && marks[index].rank.None?
      requires |nodes[index].unions| + |nodes[index].subtracts| + |operands| <= marks[index].quota
      modifies this
      ensures Valid() && active == old(active)
      ensures Keeps(old(nodes), old(marks), nodes, marks, index) && failures >= old(failures) && clock >= old(clock)
      ensures nodes[index] == Extended(old(nodes)[index], children, unions) && |children| <= |operands|
      ensures failures == 0 ==> AreOperands(env, nodes, marks, children, operands)
      decreases MAX_DEPTH - depth, 0
    {
      hide Quotas, Stored, Completed, WellBehaved, Exact, Storage, SharedTable, Acyclic, WithinQuota;
      hide AllExact, SourceOf;
      hide IsShared, Caused, HasRoom;
      children := [];
      for k := 0 to |operands|
        invariant Valid() && active == old(active)
        invariant Keeps(old(nodes), old(marks), nodes, marks, index) && failures >= old(failures) && clock >= old(clock)
        invariant nodes[index] == Extended(old(nodes)[index], children, unions) && |children| <= k
        invariant failures == 0 ==> AreOperands(env, nodes, marks, children, operands[..k])
      {
        ghost var was, had := nodes, marks;
        var outcome := Append(operands[k].id, operands[k].mesh, depth + 1);
        if outcome.Failed? {
          partials := partials + 1;
          continue;
        }
        ghost var mid := nodes;
        Link(index, outcome.index, unions);
        if failures == 0 {
          MoreOperands(env, was, had, nodes, marks, children, operands, k, outcome.index);
        }
        children := children + [outcome.index];
      }
      assert operands[..|operands|] == operands;
    }

    /** Adds the finished node of an edge chamfer. */
    method AddChamfer(target: Id, mesh: SweptMesh)
      requires Valid() && nodeCount < MAX_NODES && Storage(mesh) <= MAX_BYTES - bytes
      modifies this`nodes, this`nodeCount, this`bytes, this`marks, this`clock
      ensures Valid() && clock == old(clock) + 1
      ensures nodes == old(nodes) + [Node(target, MeshBase(mesh.mesh.positions, mesh.mesh.indices), [], [], [])]
      ensures marks == old(marks) + [Mark(Some(old(clock)), mesh, true, 0)]
    {
      hide Quotas, Stored, Completed, WellBehaved, Storage, SharedTable, Sound, Acyclic, WithinQuota;
      hide AllExact;
      ghost var was, had := nodes, marks;
      bytes := bytes + Storage(mesh);
      nodeCount := nodeCount + 1;
      nodes := nodes + [Node(target, MeshBase(mesh.mesh.positions, mesh.mesh.indices), [], [], [])];
      marks := marks + [Mark(Some(clock), mesh, true, 0)];
      clock := clock + 1;
      SumsSnoc(had, marks[|had|]);
      BareIsSound(nodes, marks, clock, |was|);
      ChangeKeeps(env, was, had, nodes, marks, clock - 1, clock, shared, |was|);
      if failures == 0 { AllExactGrows(env, was, had, nodes, marks); }
    }

    /** Adds one edge chamfer below a node, room permitting. */
    method Carve(index: nat, target: Id, mesh: SweptMesh) returns (ok: bool)
      requires Valid() && index < |nodes| && marks[index].rank.None?
      requires |nodes[index].unions| + |nodes[index].subtracts| < marks[index].quota
      modifies this
      ensures Valid() && active == old(active)
      ensures ok ==> failures == old(failures) && clock == old(clock) + 1
      ensures ok ==> nodes == old(nodes)[index := Extended(old(nodes)[index], [|old(nodes)|], false)]
                              + [Node(target, MeshBase(mesh.mesh.positions, mesh.mesh.indices), [], [], [])]
      ensures ok ==> marks == old(marks) + [Mark(Some(old(clock)), mesh, true, 0)]
      ensures ok <==> HasRoom(|old(nodes)|, old(bytes), Storage(mesh))
      ensures !ok ==> failures > old(failures) && nodes == old(nodes) && marks == old(marks) && clock == old(clock)
      ensures !ok ==> bytes == old(bytes)
    {
      hide Quotas, Stored, Completed, WellBehaved, SharedTable, Acyclic, WithinQuota, AllExact, Storage;
      if nodeCount >= MAX_NODES || Storage(mesh) > MAX_BYTES - bytes {
        failures := failures + 1;
        return false;
      }
      var child := |nodes|;
      AddChamfer(target, mesh);
      Link(index, child, false);
      return true;
    }

    /** Cuts the edge chamfers and collects the fitting planes; running out of room fails the whole node. */
    method ApplyDirect(index: nat, id: Id, mesh: SweptMesh)
      returns (ok: bool, planes: seq<Candidate>, ghost carved: seq<nat>)
      requires Valid() && index < |nodes| == |marks| && marks[index].rank.None? && mesh.mesh.positions != []
      requires |nodes[index].unions| + |nodes[index].subtracts|
          + |ChamfersOf(env, id, mesh, OperationsOf(env, id))| <= marks[index].quota
      modifies this
      ensures Valid() && active == old(active)
      ensures Keeps(old(nodes), old(marks), nodes, marks, index) && failures >= old(failures) && clock >= old(clock)
      ensures nodes[index] == Extended(old(nodes)[index], carved, false)
      ensures ok ==> AreChamfers(nodes, marks, carved, ChamfersOf(env, id, mesh, OperationsOf(env, id)))
      ensures ok ==> planes == PlanesOf(env, Midpoint(BoundsOf(mesh.mesh.positions)), OperationsOf(env, id))
      ensures !ok ==> failures > old(failures) && Crowded(env, id, mesh, |nodes|, bytes)
    {
      hide Quotas, Stored, Completed, WellBehaved, Exact, SharedTable, Acyclic, WithinQuota, AllExact;
      hide BoundsOf, Midpoint, Merge, PlaneOf, AreChamfers;
      NoChamfers(nodes, marks);
      var operations := OperationsOf(env, id);
      var middle := Midpoint(BoundsOf(mesh.mesh.positions));
      ok, planes, carved := true, [], [];
      for k := 0 to |operations|
        invariant ok && Valid() && active == old(active)
        invariant Keeps(old(nodes), old(marks), nodes, marks, index) && failures == old(failures) && clock >= old(clock)
        invariant nodes[index] == Extended(old(nodes)[index], carved, false)
        invariant AreChamfers(nodes, marks, carved, ChamfersOf(env, id, mesh, operations[..k]))
        invariant |carved| == |ChamfersOf(env, id, mesh, operations[..k])|
        invariant planes == PlanesOf(env, middle, operations[..k])
      {
        assert operations[..k + 1][..k] == operations[..k];
        FewerChamfers(env, id, mesh, operations, k + 1);
        var operation := operations[k];
        if operation.kind == EDGE_CHAMFER {
          var cutter := env.chamfer(id, mesh, operation.target);
          NoPlane(env, middle, operation);
          if cutter.None? { continue; }
          ghost var was, had := nodes, marks;
          ghost var child := |nodes|;
          var cut := Carve(index, operation.target, cutter.value);
          if !cut {
            assert LacksRoom(env, id, mesh, operations[k], |nodes|, bytes);
            return false, planes, carved;
          }
          MoreChamfers(was, had, nodes, marks, carved, ChamfersOf(env, id, mesh, operations[..k]), child,
                       Operand(operation.target, cutter.value, 0.0));
          carved := carved + [child];
          continue;
        }
        var candidate := PlaneOf(env, middle, operation);
        if candidate.Some? { planes := MergePlane(planes, candidate.value); }
      }
      assert operations[..|operations|] == operations;
    }
  }
}
