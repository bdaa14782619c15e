/**
 What one object's persisted operations ask for: which Boolean operands apply to its mesh,
 in which order, which edge chamfers are cut, and which fitting planes are kept.
 */
module OperationPlans {
  import opened Prisms
  import opened SweepTrim
  import opened Vectors
  import opened Wrappers

  type Id = nat

  /** The numbers a semantic recipe (a prism or a ruled sweep) consists of. */
  type Form = seq<real>

  datatype Operation = Operation(kind: nat, target: Id, event: nat, relation: nat)

  datatype Operand = Operand(id: Id, mesh: SweptMesh, volume: real)

  datatype Plane = Plane(origin: Vec, normal: Vec)

  datatype Candidate = Candidate(plane: Plane, operation: Operation)

  /** The solid a node starts from. */
  datatype Base =
    | RuledBase(sweep: Form)
    | PrismBase(prism: Form)
    | MeshBase(positions: seq<Vec>, indices: seq<nat>)
    | RootBase(envelope: Form)

  /** The model the graph is built over; everything geometric it is asked for is a function of its arguments. */
  datatype Environment = Environment(
    operations: map<Id, seq<Operation>>,
    objectType: Id -> nat,
    operative: (Id, bool) -> Option<SweptMesh>,
    volume: SweptMesh -> real,
    expand: (Id, Id, SweptMesh, SweptMesh, real) -> SweptMesh,
    sweepForm: (Id, SweptMesh) -> Option<Form>,
    prismForm: (Id, SweptMesh) -> Option<Form>,
    rootForm: (Id, SweptMesh) -> Form,
    chamfer: (Id, SweptMesh, Id) -> Option<SweptMesh>,
    fitting: Id -> Option<Plane>,
    digest: (Id, SweptMesh) -> nat,
    faceted: bool)

  /** Widening a cutter moves its vertices but keeps their number. */
  ghost predicate WellBehaved(env: Environment) {
    forall host, cutter, hostMesh, mesh, extension ::
      |env.expand(host, cutter, hostMesh, mesh, extension).mesh.positions| == |mesh.mesh.positions|
  }

  function OperationsOf(env: Environment, id: Id): seq<Operation> {
    if id in env.operations then env.operations[id] else []
  }

  /** What an operand is recognised by: its sweep, else its prism, else its mesh. */
  function SourceOf(env: Environment, id: Id, mesh: SweptMesh): Base {
    var sweep := if env.faceted then None else env.sweepForm(id, mesh);
    var prism := if env.faceted then None else env.prismForm(id, mesh);
    if sweep.Some? then RuledBase(sweep.value)
    else if prism.Some? then PrismBase(prism.value)
    else MeshBase(mesh.mesh.positions, mesh.mesh.indices)
  }

  // ----- Boolean operands -----

  const CUT: nat := 11
  const ADD: nat := 38
  const WELD_PREPARATION: nat := 39
  const FITTING: nat := 9
  const LINE_CUT: nat := 12
  const EDGE_CHAMFER: nat := 79

  predicate IsBoolean(operation: Operation) {
    operation.kind == CUT || operation.kind == ADD || operation.kind == WELD_PREPARATION
  }

  predicate IsAddition(env: Environment, operation: Operation) {
    operation.kind == ADD || env.objectType(operation.target) == ADD
  }

  function Hull(a: Bounds, b: Bounds): Bounds {
    Bounds(Vec(Min(a.minimum.x, b.minimum.x), Min(a.minimum.y, b.minimum.y), Min(a.minimum.z, b.minimum.z)),
           Vec(Max(a.maximum.x, b.maximum.x), Max(a.maximum.y, b.maximum.y), Max(a.maximum.z, b.maximum.z)))
  }

  datatype Gathered = Gathered(seen: set<Id>, additions: seq<Operand>, cutters: seq<Operand>, bounds: Bounds,
      omitted: nat)

  /** Each Boolean target counts once; additions widen the bounds, incomplete operands are omitted. */
  function Gather(env: Environment, host: Bounds, operations: seq<Operation>): Gathered {
    if operations == [] then Gathered({}, [], [], host, 0)
    else
      var before, operation := Gather(env, host, operations[..|operations| - 1]), operations[|operations| - 1];
      if !IsBoolean(operation) || operation.target in before.seen then before
      else
        var mesh := env.operative(operation.target, !IsAddition(env, operation));
        var seen := before.seen + {operation.target};
        if mesh.None? then before.(seen := seen, omitted := before.omitted + 1)
        else if mesh.value.mesh.positions == [] then before.(seen := seen)
        else
          var operand := Operand(operation.target, mesh.value, env.volume(mesh.value));
          if IsAddition(env, operation) then
            before.(seen := seen, additions := before.additions + [operand],
                    bounds := Hull(before.bounds, BoundsOf(mesh.value.mesh.positions)))
          else before.(seen := seen, cutters := before.cutters + [operand])
  }

  /** An object that is itself a Boolean cut does not replay the operands that produced it. */
  predicate Replays(env: Environment, id: Id) {
    env.objectType(id) != CUT
  }

  ghost function GatheredFor(env: Environment, id: Id, mesh: SweptMesh): Gathered
    requires mesh.mesh.positions != []
  {
    var host := BoundsOf(mesh.mesh.positions);
    if Replays(env, id) then Gather(env, host, OperationsOf(env, id)) else Gathered({}, [], [], host, 0)
  }

  method GatherOperands(env: Environment, id: Id, mesh: SweptMesh) returns (gathered: Gathered)
    requires mesh.mesh.positions != []
    ensures gathered == GatheredFor(env, id, mesh)
  {
    hide BoundsOf, Hull;
    var operations := OperationsOf(env, id);
    var host := BoundsOf(mesh.mesh.positions);
    var additions: seq<Operand>, cutters: seq<Operand>, bounds := [], [], host;
    var seen: set<Id>, omitted := {}, 0;
    for k := 0 to |operations|
      invariant Gathered(seen, additions, cutters, bounds, omitted) ==
                if Replays(env, id) then Gather(env, host, operations[..k]) else Gathered({}, [], [], host, 0)
    {
      assert operations[..k + 1][..k] == operations[..k];
      var operation := operations[k];
      if !IsBoolean(operation) || !Replays(env, id) || operation.target in seen { continue; }
      seen := seen + {operation.target};
      var addition := IsAddition(env, operation);
      var operative := env.operative(operation.target, !addition);
      if operative.None? {
        omitted := omitted + 1;
        continue;
      }
      if operative.value.mesh.positions == [] { continue; }
      var operand := Operand(operation.target, operative.value, env.volume(operative.value));
      if addition {
        bounds := Hull(bounds, BoundsOf(operative.value.mesh.positions));
        additions := additions + [operand];
      } else {
        cutters := cutters + [operand];
      }
    }
    assert operations[..|operations|] == operations;
    return Gathered(seen, additions, cutters, bounds, omitted);
  }

  ghost predicate AllSolid(operands: seq<Operand>) {
    forall k :: 0 <= k < |operands| ==> operands[k].mesh.mesh.positions != []
  }

  ghost predicate Takes(operands: seq<Operand>, id: Id) {
    exists k :: 0 <= k < |operands| && operands[k].id == id
  }

  ghost predicate DistinctIds(operands: seq<Operand>) {
    forall i, j :: 0 <= i < j < |operands| ==> operands[i].id != operands[j].id
  }

  /** No target is applied twice, be it by adding or by cutting. */
  lemma {:induction false} TargetsApplyOnce(env: Environment, host: Bounds, operations: seq<Operation>)
    ensures var g := Gather(env, host, operations);
      && DistinctIds(g.additions + g.cutters)
      && forall id :: Takes(g.additions + g.cutters, id) ==> id in g.seen
  {
    hide BoundsOf, Hull;
    if operations != [] {
      var before, g := Gather(env, host, operations[..|operations| - 1]), Gather(env, host, operations);
      TargetsApplyOnce(env, host, operations[..|operations| - 1]);
      var old', new' := before.additions + before.cutters, g.additions + g.cutters;
      var target := operations[|operations| - 1].target;
      if g.additions != before.additions {
        OneMore(before.additions, before.cutters, g.additions[|before.additions|], before.seen);
      } else if g.cutters != before.cutters {
        OneMore(old', [], g.cutters[|before.cutters|], before.seen);
        assert new' == old' + [g.cutters[|before.cutters|]] + [];
        assert old' + [] == old';
      }
    }
  }

  lemma OneMore(front: seq<Operand>, back: seq<Operand>, operand: Operand, seen: set<Id>)
    requires DistinctIds(front + back) && operand.id !in seen && forall id :: Takes(front + back, id) ==> id in seen
    ensures DistinctIds(front + [operand] + back)
    ensures forall id :: Takes(front + [operand] + back, id) ==> id in seen + {operand.id}
  {
    var before, after := front + back, front + [operand] + back;
    forall k | 0 <= k < |after| && k != |front|
        ensures after[k].id in seen && after[k] == before[if k < |front| then k else k - 1]
    {
      assert Takes(before, before[if k < |front| then k else k - 1].id);
    }
  }

  lemma {:induction false} GatheredAreSolid(env: Environment, host: Bounds, operations: seq<Operation>)
    ensures var g := Gather(env, host, operations); AllSolid(g.additions) && AllSolid(g.cutters)
  {
    hide BoundsOf, Hull;
    if operations != [] { GatheredAreSolid(env, host, operations[..|operations| - 1]); }
  }

  /** Drops the cutters away from the fused host. */
  function Near(cutters: seq<Operand>, bounds: Bounds): (r: seq<Operand>)
    requires AllSolid(cutters)
    ensures |r| <= |cutters| && AllSolid(r)
  {
    if cutters == [] then []
    else
      (if Intersects(bounds, BoundsOf(cutters[0].mesh.mesh.positions)) then [cutters[0]] else [])
      + Near(cutters[1..], bounds)
  }

  ghost function Trimmed(cutters: seq<Operand>, bounds: Bounds): (r: seq<Operand>)
    ensures |r| == |cutters|
  {
    if cutters == [] then []
    else
      var last := cutters[|cutters| - 1];
      Trimmed(cutters[..|cutters| - 1], bounds) + [last.(mesh := TrimmedMesh(last.mesh, bounds))]
  }

  method TrimAll(cutters: seq<Operand>, bounds: Bounds) returns (trimmed: seq<Operand>)
    ensures trimmed == Trimmed(cutters, bounds)
  {
    hide TrimmedMesh;
    trimmed := [];
    for k := 0 to |cutters|
      invariant trimmed == Trimmed(cutters[..k], bounds)
    {
      assert cutters[..k + 1][..k] == cutters[..k];
      var mesh := TrimToRelevance(cutters[k].mesh, bounds);
      trimmed := trimmed + [cutters[k].(mesh := mesh)];
    }
    assert cutters[..|cutters|] == cutters;
  }

  function NotEmpty(cutters: seq<Operand>): (r: seq<Operand>)
    ensures |r| <= |cutters| && AllSolid(r)
  {
    if cutters == [] then []
    else
      (if cutters[0].mesh.mesh.positions == [] || cutters[0].mesh.mesh.indices == [] then [] else [cutters[0]])
          + NotEmpty(cutters[1..])
  }

  function LeastVolume(operands: seq<Operand>): real
    requires operands != []
  {
    if |operands| == 1 then operands[0].volume
    else Min(LeastVolume(operands[..|operands| - 1]), operands[|operands| - 1].volume)
  }

  function GreatestVolume(operands: seq<Operand>): real
    requires operands != []
  {
    if |operands| == 1 then operands[0].volume
    else Max(GreatestVolume(operands[..|operands| - 1]), operands[|operands| - 1].volume)
  }

  /** Sibling cutters of the same size are widened more. */
  function Extension(cutters: seq<Operand>): real {
    if |cutters| <= 1 then 0.00001
    else
      var least, greatest := LeastVolume(cutters), GreatestVolume(cutters);
      if greatest > 0.0 && greatest - least <= Max(1.0, greatest * 0.00000001) then 0.001 else 0.00001
  }

  function Expanded(env: Environment, host: Id, mesh: SweptMesh, cutters: seq<Operand>,
                    extension: real): (r: seq<Operand>)
    ensures |r| == |cutters|
    ensures WellBehaved(env) && AllSolid(cutters) ==> AllSolid(r)
  {
    if cutters == [] then []
    else
      [cutters[0].(mesh := env.expand(host, cutters[0].id, mesh, cutters[0].mesh, extension))]
      + Expanded(env, host, mesh, cutters[1..], extension)
  }

  ghost predicate Descending(operands: seq<Operand>) {
    forall i, j :: 0 <= i < j < |operands| ==> operands[i].volume >= operands[j].volume
  }

  /** How many operands are at least as large. */
  function Place(operands: seq<Operand>, volume: real): (k: nat)
    requires Descending(operands)
    ensures k <= |operands|
    ensures forall j :: 0 <= j < k ==> operands[j].volume >= volume
    ensures forall j :: k <= j < |operands| ==> operands[j].volume < volume
  {
    if operands == [] || operands[|operands| - 1].volume >= volume then |operands|
    else Place(operands[..|operands| - 1], volume)
  }

  /** Puts an operand behind every other that is at least as large. */
  function Insert(operands: seq<Operand>, operand: Operand): (r: seq<Operand>)
    requires Descending(operands)
    ensures Descending(r) && |r| == |operands| + 1
  {
    var k := Place(operands, operand.volume);
    operands[..k] + [operand] + operands[k..]
  }

  /** Largest first; operands of equal size stay in order. */
  function ByVolume(operands: seq<Operand>): (r: seq<Operand>)
    ensures Descending(r) && |r| == |operands|
  {
    if operands == [] then [] else Insert(ByVolume(operands[..|operands| - 1]), operands[|operands| - 1])
  }

  /** Sorting keeps exactly the same operands. */
  lemma {:induction false} ByVolumeIsPermutation(operands: seq<Operand>)
    ensures multiset(ByVolume(operands)) == multiset(operands)
  {
    hide Descending;
    if operands != [] {
      var before, last := operands[..|operands| - 1], operands[|operands| - 1];
      ByVolumeIsPermutation(before);
      var sorted := ByVolume(before);
      assert sorted == sorted[..Place(sorted, last.volume)] + sorted[Place(sorted, last.volume)..];
      assert operands == before + [last];
    }
  }

  lemma SortedIsSolid(operands: seq<Operand>)
    requires AllSolid(operands)
    ensures AllSolid(ByVolume(operands))
  {
    hide ByVolume;
    var sorted := ByVolume(operands);
    ByVolumeIsPermutation(operands);
    forall k | 0 <= k < |sorted| ensures sorted[k].mesh.mesh.positions != [] {
      assert sorted[k] in multiset(sorted);
      assert sorted[k] in operands;
    }
  }

  ghost function AdditionsOf(env: Environment, id: Id, mesh: SweptMesh): seq<Operand>
    requires mesh.mesh.positions != []
  {
    ByVolume(GatheredFor(env, id, mesh).additions)
  }

  ghost function CuttersOf(env: Environment, id: Id, mesh: SweptMesh): seq<Operand>
    requires mesh.mesh.positions != []
  {
    var gathered := GatheredFor(env, id, mesh);
    GatheredAreSolid(env, BoundsOf(mesh.mesh.positions), OperationsOf(env, id));
    var kept := NotEmpty(Trimmed(Near(gathered.cutters, gathered.bounds), gathered.bounds));
    ByVolume(Expanded(env, id, mesh, kept, Extension(kept)))
  }

  lemma OperandsAreSolid(env: Environment, id: Id, mesh: SweptMesh)
    requires WellBehaved(env) && mesh.mesh.positions != []
    ensures AllSolid(AdditionsOf(env, id, mesh)) && AllSolid(CuttersOf(env, id, mesh))
  {
    hide Near, Trimmed, NotEmpty, Extension, Expanded, ByVolume, WellBehaved, AllSolid, BoundsOf;
    GatheredAreSolid(env, BoundsOf(mesh.mesh.positions), OperationsOf(env, id));
    EmptyIsSolid();
    var gathered := GatheredFor(env, id, mesh);
    var kept := NotEmpty(Trimmed(Near(gathered.cutters, gathered.bounds), gathered.bounds));
    SortedIsSolid(gathered.additions);
    SortedIsSolid(Expanded(env, id, mesh, kept, Extension(kept)));
  }

  /** The operands of an object in the order they are applied, and how many were omitted. */
  method PlanOperands(env: Environment, id: Id, mesh: SweptMesh)
    returns (additions: seq<Operand>, cutters: seq<Operand>, omitted: nat)
    requires WellBehaved(env) && mesh.mesh.positions != []
    ensures additions == AdditionsOf(env, id, mesh) && cutters == CuttersOf(env, id, mesh)
    ensures AllSolid(additions) && AllSolid(cutters)
  {
    hide Near, Trimmed, NotEmpty, Extension, Expanded, ByVolume, WellBehaved, AllSolid, BoundsOf;
    var gathered := GatherOperands(env, id, mesh);
    GatheredAreSolid(env, BoundsOf(mesh.mesh.positions), OperationsOf(env, id));
    EmptyIsSolid();
    OperandsAreSolid(env, id, mesh);
    var near := Near(gathered.cutters, gathered.bounds);
    var trimmed := TrimAll(near, gathered.bounds);
    var kept := NotEmpty(trimmed);
    var widened := Expanded(env, id, mesh, kept, Extension(kept));
    return ByVolume(gathered.additions), ByVolume(widened), gathered.omitted;
  }

  lemma EmptyIsSolid()
    ensures AllSolid([])
  {
  }

  // ----- Edge chamfers and fitting planes -----

  function ChamfersOf(env: Environment, id: Id, mesh: SweptMesh, operations: seq<Operation>): (r: seq<Operand>)
    ensures |r| <= |operations|
  {
    if operations == [] then []
    else
      var before, operation := ChamfersOf(env, id, mesh, operations[..|operations| - 1]), operations[|operations| - 1];
      if operation.kind != EDGE_CHAMFER then before
      else
        var cutter := env.chamfer(id, mesh, operation.target);
        if cutter.None? then before else before + [Operand(operation.target, cutter.value, 0.0)]
  }

  function Midpoint(bounds: Bounds): Vec {
    Scale(Add(bounds.minimum, bounds.maximum), 0.5)
  }

  /** A line cut reverses its plane; a fitting turns it towards the middle of the host. */
  function PlaneOf(env: Environment, middle: Vec, operation: Operation): Option<Candidate> {
    if operation.kind != FITTING && operation.kind != LINE_CUT then None
    else
      var plane := env.fitting(operation.target);
      if plane.None? then None
      else if operation.kind == LINE_CUT || Dot(Subtract(middle, plane.value.origin), plane.value.normal) < 0.0 then
        Some(Candidate(plane.value.(normal := Scale(plane.value.normal, -1.0)), operation))
      else Some(Candidate(plane.value, operation))
  }

  predicate SameFitting(existing: Candidate, candidate: Candidate) {
    existing.operation.kind == FITTING && Dot(existing.plane.normal, candidate.plane.normal) >= 1.0 - 0.00000001
  }

  predicate Later(a: Operation, b: Operation) {
    a.event > b.event || (a.event == b.event && a.relation > b.relation)
  }

  /** The first fitting with the same normal, or the length when there is none. */
  function Rival(planes: seq<Candidate>, candidate: Candidate): (k: nat)
    ensures k <= |planes| && (k < |planes| ==> SameFitting(planes[k], candidate))
    ensures forall j :: 0 <= j < k ==> !SameFitting(planes[j], candidate)
  {
    if planes == [] || SameFitting(planes[0], candidate) then 0 else 1 + Rival(planes[1..], candidate)
  }

  function Merge(planes: seq<Candidate>, candidate: Candidate): seq<Candidate> {
    var k := Rival(planes, candidate);
    if candidate.operation.kind != FITTING || k == |planes| then planes + [candidate]
    else if Later(candidate.operation, planes[k].operation) then planes[k := candidate]
    else planes
  }

  function PlanesOf(env: Environment, middle: Vec, operations: seq<Operation>): seq<Candidate> {
    if operations == [] then []
    else
      var before, candidate :=
          PlanesOf(env, middle, operations[..|operations| - 1]), PlaneOf(env, middle, operations[|operations| - 1]);
      if candidate.None? then before else Merge(before, candidate.value)
  }

  method MergePlane(planes: seq<Candidate>, candidate: Candidate) returns (merged: seq<Candidate>)
    ensures merged == Merge(planes, candidate)
  {
    if candidate.operation.kind == FITTING {
      for k := 0 to |planes|
        invariant forall j :: 0 <= j < k ==> !SameFitting(planes[j], candidate)
      {
        if SameFitting(planes[k], candidate) {
          if Later(candidate.operation, planes[k].operation) { return planes[k := candidate]; }
          return planes;
        }
      }
    }
    return planes + [candidate];
  }

  function KeptPlanes(candidates: seq<Candidate>): (planes: seq<Plane>)
    ensures |planes| == |candidates|
  {
    if candidates == [] then [] else KeptPlanes(candidates[..|candidates| - 1]) + [candidates[|candidates| - 1].plane]
  }

  // ----- The edges an object can ask for -----

  function CountBoolean(operations: seq<Operation>): nat {
    if operations == [] then 0
    else CountBoolean(operations[..|operations| - 1]) + if IsBoolean(operations[|operations| - 1]) then 1 else 0
  }

  lemma {:induction false} GatheredAreFew(env: Environment, host: Bounds, operations: seq<Operation>)
    ensures var g := Gather(env, host, operations); |g.additions| + |g.cutters| <= CountBoolean(operations)
  {
    hide BoundsOf, Hull;
    if operations != [] { GatheredAreFew(env, host, operations[..|operations| - 1]); }
  }

  lemma {:induction false} ChamfersAreFew(env: Environment, id: Id, mesh: SweptMesh, operations: seq<Operation>)
    ensures |ChamfersOf(env, id, mesh, operations)| + CountBoolean(operations) <= |operations|
  {
    if operations != [] { ChamfersAreFew(env, id, mesh, operations[..|operations| - 1]); }
  }

  /** An object never has more children than persisted operations. */
  lemma ChildrenAreFew(env: Environment, id: Id, mesh: SweptMesh)
    requires mesh.mesh.positions != []
    ensures |AdditionsOf(env, id, mesh)| + |CuttersOf(env, id, mesh)|
        + |ChamfersOf(env, id, mesh, OperationsOf(env, id))|
            <= |OperationsOf(env, id)|
  {
    hide BoundsOf, Hull, Near, Trimmed, NotEmpty, Expanded, ByVolume, Extension;
    GatheredAreFew(env, BoundsOf(mesh.mesh.positions), OperationsOf(env, id));
    ChamfersAreFew(env, id, mesh, OperationsOf(env, id));
    GatheredAreSolid(env, BoundsOf(mesh.mesh.positions), OperationsOf(env, id));
  }
}
