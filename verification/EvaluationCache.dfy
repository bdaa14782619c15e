/**
 The evaluation cache: one completed evaluation, kept under its localised request, serves
 every rigidly moved occurrence of it.
 */
module EvaluationCache {
  import opened EvaluationRequests
  import opened Placements
  import opened Vectors
  import opened Wrappers

  const MAX_ENTRIES: nat := 4096
  const MAX_BYTES: nat := 268435456

  datatype Mesh = Mesh(id: nat, positions: seq<Vec>, indices: seq<nat>, area: real, volume: real, exact: bool)

  datatype Outcome = Evaluated(mesh: Mesh) | Refused(error: nat)

  /** The evaluator behind the cache, the encoder of requests, and the test for safe float coordinates. */
  datatype Kernel = Kernel(evaluate: Request -> Outcome, encode: Request -> Option<seq<nat>>, safe: Request -> bool)

  function Placed(mesh: Mesh, placement: Frame): Mesh {
    mesh.(positions := WorldPoints(mesh.positions, placement))
  }

  function PlacedOutcome(outcome: Outcome, placement: Frame): Outcome {
    if outcome.Refused? then outcome else Evaluated(Placed(outcome.mesh, placement))
  }

  function Named(outcome: Outcome, id: nat): Outcome {
    if outcome.Refused? then outcome else Evaluated(outcome.mesh.(id := id))
  }

  /** The evaluator commutes with rigid motions and uses object ids only to label its result. */
  ghost predicate Equivariant(kernel: Kernel) {
    && (forall request, placement :: IsRigid(placement) ==>
          kernel.evaluate(Moved(request, placement)) == PlacedOutcome(kernel.evaluate(request), placement))
    && (forall request :: kernel.evaluate(request) == Named(kernel.evaluate(Anonymous(request)), request.id))
  }

  /** Different requests never encode alike. */
  ghost predicate Injective(kernel: Kernel) {
    forall a, b :: kernel.encode(a).Some? && kernel.encode(a) == kernel.encode(b) ==> a == b
  }

  datatype Kind = Translation | Rigid

  datatype Key = Key(bytes: seq<nat>, kind: Kind)

  datatype Entry = Entry(placement: Frame, mesh: Mesh)

  ghost predicate WorldAligned(placement: Frame) {
    placement == At(placement.origin)
  }

  /** The entry holds what the evaluator gives for the key's request at the entry's placement. */
  ghost predicate Holds(kernel: Kernel, key: Key, entry: Entry, request: Request) {
    && kernel.encode(request) == Some(key.bytes) && Anonymous(request) == request
    && IsRigid(entry.placement) && (key.kind.Translation? ==> WorldAligned(entry.placement))
    && kernel.evaluate(Moved(request, entry.placement)) == Evaluated(entry.mesh.(id := 0))
  }

  ghost predicate Faithful(kernel: Kernel, key: Key, entry: Entry) {
    exists request :: Holds(kernel, key, entry, request)
  }

  // ----- Re-placing a stored mesh -----

  predicate SharesAxes(a: Frame, b: Frame) {
    a.xAxis == b.xAxis && a.yAxis == b.yAxis && a.zAxis == b.zAxis
  }

  function Replaced(p: Vec, kind: Kind, from: Frame, placement: Frame): Vec {
    if kind.Translation? || SharesAxes(placement, from) then Subtract(Add(p, placement.origin), from.origin)
    else WorldPoint(LocalPoint(p, from), placement)
  }

  lemma ReplacedIsMoved(local: Vec, kind: Kind, from: Frame, placement: Frame)
    requires IsRigid(from) && (kind.Translation? ==> SharesAxes(placement, from))
    ensures Replaced(WorldPoint(local, from), kind, from, placement) == WorldPoint(local, placement)
  {
    hide IsRigid, LocalPoint, Combine;
    LocalReturns(local, from);
  }

  /** The mesh of an entry with every position re-placed. */
  ghost predicate IsReplaced(mesh: Mesh, entry: Entry, kind: Kind, placement: Frame) {
    && |mesh.positions| == |entry.mesh.positions| && mesh == entry.mesh.(positions := mesh.positions, id := mesh.id)
    && forall i :: 0 <= i < |mesh.positions| ==>
         mesh.positions[i] == Replaced(entry.mesh.positions[i], kind, entry.placement, placement)
  }

  /** A stored mesh, re-placed, is the evaluation of the request at the new placement. */
  lemma ReplacedMeshIsEvaluation(kernel: Kernel, key: Key, entry: Entry, request: Request, placement: Frame, mesh: Mesh)
    requires IsReplaced(mesh, entry, key.kind, placement)
    requires Equivariant(kernel) && Holds(kernel, key, entry, request) && IsRigid(placement)
    requires key.kind.Translation? ==> SharesAxes(placement, entry.placement)
    ensures kernel.evaluate(Moved(request, placement)) == Evaluated(mesh.(id := 0))
  {
    hide IsRigid, Replaced, WorldPoint, Moved, Anonymous, SharesAxes;
    var local := kernel.evaluate(request);
    assert PlacedOutcome(local, entry.placement) == Evaluated(entry.mesh.(id := 0));
    forall i | 0 <= i < |mesh.positions| ensures mesh.positions[i] == WorldPoints(local.mesh.positions, placement)[i] {
      ReplacedIsMoved(local.mesh.positions[i], key.kind, entry.placement, placement);
      assert entry.mesh.positions[i] == WorldPoints(local.mesh.positions, entry.placement)[i];
    }
    assert mesh.positions == WorldPoints(local.mesh.positions, placement);
  }

  // ----- Accounting -----

  ghost function EntrySize(cache: Cache, key: Key, entry: Entry): nat {
    |key.bytes| + 12 * |entry.mesh.positions| + 4 * |entry.mesh.indices|
    + if key.kind.Translation? then cache.translationOverhead else cache.rigidOverhead
  }

  ghost function Sizes(cache: Cache, order: seq<Key>, entries: map<Key, Entry>): nat
    requires forall key :: key in order ==> key in entries
  {
    if order == [] then 0
    else
      var last := order[|order| - 1];
      assert last in order;
      Sizes(cache, order[..|order| - 1], entries) + EntrySize(cache, last, entries[last])
  }

  lemma {:induction false} SizesKeep(cache: Cache, order: seq<Key>, entries: map<Key, Entry>, key: Key, entry: Entry)
    requires (forall k :: k in order ==> k in entries) && key !in order
    ensures Sizes(cache, order, entries[key := entry]) == Sizes(cache, order, entries)
    decreases |order|
  {
    if order != [] {
      assert order[|order| - 1] in order;
      SizesKeep(cache, order[..|order| - 1], entries, key, entry);
    }
  }

  lemma SizesSnoc(cache: Cache, order: seq<Key>, entries: map<Key, Entry>, key: Key)
    requires (forall k :: k in order ==> k in entries) && key in entries
    ensures Sizes(cache, order + [key], entries) == Sizes(cache, order, entries) + EntrySize(cache, key, entries[key])
  {
    assert (order + [key])[..|order|] == order;
  }

  class Cache {
    const kernel: Kernel
    /** The fixed size of an entry of each kind. */
    const translationOverhead: nat
    const rigidOverhead: nat

    var entries: map<Key, Entry>
    var bytes: nat

    ghost var order: seq<Key>

    ghost predicate Valid()
      reads this
    {
      && Equivariant(kernel) && Injective(kernel)
      && (forall key :: key in entries <==> key in order) && |order| == |entries| <= MAX_ENTRIES
      && bytes == Sizes(this, order, entries) <= MAX_BYTES
      && forall key :: key in entries ==> Faithful(kernel, key, entries[key])
    }

    constructor (kernel: Kernel, translationOverhead: nat, rigidOverhead: nat)
      requires Equivariant(kernel) && Injective(kernel)
      ensures Valid() && this.kernel == kernel && entries == map[]
    {
      this.kernel, this.translationOverhead, this.rigidOverhead := kernel, translationOverhead, rigidOverhead;
      entries, bytes, order := map[], 0, [];
    }

    /** The stored evaluation of a key, re-placed and relabelled. */
    method Find(key: Key, placement: Frame, id: nat, ghost request: Request) returns (found: Option<Mesh>)
      requires Valid() && IsRigid(placement) && kernel.encode(request) == Some(key.bytes)
      requires key.kind.Translation? ==> WorldAligned(placement)
      ensures found.Some? <==> key in entries
      ensures found.Some? ==> Evaluated(found.value) == Named(kernel.evaluate(Moved(request, placement)), id)
    {
      hide Equivariant, IsRigid, Replaced, Moved, Anonymous, Sizes;
      if key !in entries { return None; }
      var entry := entries[key];
      var positions := entry.mesh.positions;
      for i := 0 to |positions|
        invariant |positions| == |entry.mesh.positions| && positions[i..] == entry.mesh.positions[i..]
        invariant forall k :: 0 <= k < i ==>
          positions[k] == Replaced(entry.mesh.positions[k], key.kind, entry.placement, placement)
      {
        assert positions[i] == entry.mesh.positions[i..][0];
        positions := positions[i := Replaced(positions[i], key.kind, entry.placement, placement)];
      }
      var mesh := entry.mesh.(id := id, positions := positions);
      ghost var stored :| Holds(kernel, key, entry, stored);
      SameRequest(kernel, request, stored);
      ReplacedMeshIsEvaluation(kernel, key, entry, stored, placement, mesh);
      return Some(mesh);
    }

    /** Keeps an evaluation exactly when the limits allow it. */
    method Insert(key: Key, placement: Frame, mesh: Mesh)
      requires Valid() && key !in entries && Faithful(kernel, key, Entry(placement, mesh))
      modifies this
      ensures Valid()
      ensures entries == old(entries) || entries == old(entries)[key := Entry(placement, mesh)]
      ensures key in entries <==>
                |old(entries)| < MAX_ENTRIES && EntrySize(this, key, Entry(placement, mesh)) <= MAX_BYTES - old(bytes)
    {
      hide Equivariant, Injective, Faithful, Sizes;
      var overhead := if key.kind.Translation? then translationOverhead else rigidOverhead;
      var size := |key.bytes| + 12 * |mesh.positions| + 4 * |mesh.indices| + overhead;
      if |entries| >= MAX_ENTRIES || size > MAX_BYTES - bytes { return; }
      SizesKeep(this, order, entries, key, Entry(placement, mesh));
      ghost var was := order;
      entries := entries[key := Entry(placement, mesh)];
      bytes := bytes + size;
      order := order + [key];
      SizesSnoc(this, was, entries, key);
    }

    /** Evaluation under a key that ignores translation only. */
    method EvaluateTranslated(request: Request) returns (outcome: Outcome)
      requires Valid()
      modifies this
      ensures Valid() && outcome == kernel.evaluate(request)
    {
      hide Equivariant, Injective, IsRigid, OriginOf;
      var origin := OriginOf(request);
      AtIsRigid(origin);
      outcome := EvaluateUnder(request, At(origin), Translation);
    }

    method EvaluateUnder(request: Request, placement: Frame, kind: Kind) returns (outcome: Outcome)
      requires Valid() && IsRigid(placement) && (kind.Translation? ==> WorldAligned(placement))
      modifies this
      ensures Valid() && outcome == kernel.evaluate(request)
    {
      hide Equivariant, Injective, IsRigid, Localized, Moved, Anonymous, Faithful;
      var local := Localize(request, placement);
      var encoded := kernel.encode(local);
      RequestReturns(request, placement);
      OwnEvaluation(kernel, request);
      if encoded.None? {
        outcome := kernel.evaluate(request);
        return;
      }
      var key := Key(encoded.value, kind);
      var cached := Find(key, placement, request.id, local);
      if cached.Some? { return Evaluated(cached.value); }
      outcome := kernel.evaluate(request);
      if outcome.Evaluated? {
        FreshEntryHolds(kernel, key, placement, request, local, outcome.mesh);
        Insert(key, placement, outcome.mesh);
      }
    }

    /** Evaluates a request, from the cache where possible. */
    method Evaluate(request: Request, placement: Frame) returns (outcome: Outcome)
      requires Valid() && (IsTrustworthy(placement) ==> IsRigid(placement))
      modifies this
      ensures Valid() && outcome == kernel.evaluate(request)
    {
      hide Equivariant, Injective, IsTrustworthy, IsRigid;
      if !kernel.safe(request) {
        outcome := kernel.evaluate(request);
        return;
      }
      if !IsTrustworthy(placement) || kernel.encode(Localized(request, placement)).None? {
        outcome := EvaluateTranslated(request);
        return;
      }
      outcome := EvaluateUnder(request, placement, Rigid);
    }
  }

  lemma SameRequest(kernel: Kernel, a: Request, b: Request)
    requires Injective(kernel) && kernel.encode(a).Some? && kernel.encode(a) == kernel.encode(b)
    ensures a == b
  {
  }

  lemma OwnEvaluation(kernel: Kernel, request: Request)
    requires Equivariant(kernel)
    ensures kernel.evaluate(request) == Named(kernel.evaluate(Anonymous(request)), request.id)
  {
    hide Anonymous;
  }

  lemma FreshEntryHolds(kernel: Kernel, key: Key, placement: Frame, request: Request, local: Request, mesh: Mesh)
    requires Equivariant(kernel) && IsRigid(placement) && (key.kind.Translation? ==> WorldAligned(placement))
    requires local == Localized(request, placement) && kernel.encode(local) == Some(key.bytes)
    requires kernel.evaluate(request) == Evaluated(mesh)
    ensures Faithful(kernel, key, Entry(placement, mesh))
  {
    hide Equivariant, IsRigid, Moved;
    RequestReturns(request, placement);
    OwnEvaluation(kernel, request);
    AnonymousOnce(request, placement);
    OwnEvaluation(kernel, Anonymous(request));
    assert Holds(kernel, key, Entry(placement, mesh), local);
  }

  lemma AnonymousOnce(request: Request, placement: Frame)
    ensures Anonymous(Localized(request, placement)) == Localized(request, placement)
    ensures Anonymous(Anonymous(request)) == Anonymous(request)
  {
    var local := Localized(request, placement);
    assert Anonymous(local).nodes == local.nodes;
  }

  // ----- Whole runs -----

  datatype Call = Call(request: Request, placement: Frame)

  /** Any run of calls gives what the evaluator would have given to each. */
  method EvaluateAll(cache: Cache, calls: seq<Call>) returns (outcomes: seq<Outcome>)
    requires cache.Valid() && forall i ::
        0 <= i < |calls| ==> IsTrustworthy(calls[i].placement) ==> IsRigid(calls[i].placement)
    modifies cache
    ensures cache.Valid() && |outcomes| == |calls|
    ensures forall i :: 0 <= i < |calls| ==> outcomes[i] == cache.kernel.evaluate(calls[i].request)
  {
    hide IsTrustworthy, IsRigid, Cache.Valid;
    outcomes := [];
    for k := 0 to |calls|
      invariant cache.Valid() && |outcomes| == k
      invariant forall i :: 0 <= i < k ==> outcomes[i] == cache.kernel.evaluate(calls[i].request)
    {
      var outcome := cache.Evaluate(calls[k].request, calls[k].placement);
      outcomes := outcomes + [outcome];
    }
  }
}
