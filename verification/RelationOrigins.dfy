/**
 Where every emitted relation comes from, told from the stored tables alone: the fact that
 claims it, the first of those that claim the same pair, and the ids and ordinals it carries.
 */
module RelationOrigins {
  import opened Batches
  import opened RelationLaws
  import opened RelationRuns
  import opened SemanticRelations
  import opened Wrappers

  // ----- The objects -----

  /** Row `k` is the first one with the id. */
  ghost predicate IsFirstRow(objects: seq<Element>, k: nat, id: Id) {
    k < |objects| && objects[k].id == id && forall j :: 0 <= j < k ==> objects[j].id != id
  }

  /** The first row of the id has the kind. */
  ghost predicate IsKind(objects: seq<Element>, id: Id, kind: ObjectKind) {
    exists k: nat :: IsFirstRow(objects, k, id) && objects[k].kind == kind
  }

  lemma {:induction false} FirstRowOf(objects: seq<Element>, id: Id) returns (k: nat)
    ensures id in KindsOf(objects) <==> exists j :: 0 <= j < |objects| && objects[j].id == id
    ensures id in KindsOf(objects) ==> IsFirstRow(objects, k, id) && KindsOf(objects)[id] == objects[k].kind
  {
    k := 0;
    if objects != [] {
      var n := |objects| - 1;
      k := FirstRowOf(objects[..n], id);
      if id in KindsOf(objects[..n]) {
        assert objects[..n][k] == objects[k];
      } else {
        assert forall j :: 0 <= j < n ==> objects[..n][j] == objects[j];
        if objects[n].id == id { k := n; }
      }
    }
  }

  lemma KindsAreFirst(objects: seq<Element>, id: Id, kind: ObjectKind)
    ensures IsKind(objects, id, kind) <==> id in KindsOf(objects) && KindsOf(objects)[id] == kind
  {
    hide KindsOf;
    var k := FirstRowOf(objects, id);
    if j: nat :| IsFirstRow(objects, j, id) {
      assert j == k;
    }
  }

  /** A live object that is neither a Boolean part nor a cut plane. */
  ghost predicate IsLive(input: Input, id: Id) {
    && id != 0 && id in input.endpoints
    && exists kind :: IsKind(input.objects, id, kind) && kind != BooleanPart && kind != CutPlane
  }

  ghost predicate IsBar(input: Input, id: Id) {
    IsKind(input.objects, id, SingleRebar) || IsKind(input.objects, id, RebarGroup)
        || IsKind(input.objects, id, RebarMesh)
  }

  ghost predicate CanHost(input: Input, id: Id) {
    || IsKind(input.objects, id, Beam) || IsKind(input.objects, id, ContourPlate)
    || IsKind(input.objects, id, PolyBeam) || IsKind(input.objects, id, Brep)
    || IsKind(input.objects, id, LoftedPlate) || IsKind(input.objects, id, Connection)
    || IsKind(input.objects, id, Component)
  }

  // ----- Claims -----

  /** The fact claims the relation, as to its kind, pair, origin and relation id; counted ordinals are left open. */
  ghost predicate Claims(input: Input, item: Item, r: Relation) {
    && IsLive(input, r.source) && IsLive(input, r.target) && r.source != r.target
    && match item
       case ParentItem(e) =>
         r == Relation(Subelement, e.parent, e.id, r.ordinal, ObjectParent, 0)
       case StoredItem(Some(row)) =>
         && !row.hidden
         && if row.relation == 47 then
              r == Relation(HostedOn, row.target, row.source, 0, RebarHost, row.id)
              && IsBar(input, row.target) && CanHost(input, row.source)
            else
              row.relation in {7, 11, 12, 73, 96, 97, 60005}
              && r == Relation(Subelement, row.source, row.target, r.ordinal, StoredRelation, row.id)
       case StoredItem(None) => false
       case MainItem(assembly, main) =>
         r == Relation(InAssembly, main, assembly, 0, AssemblyMembership, 0)
       case MemberItem(assembly, main, member) =>
         member != main && r == Relation(InAssembly, member, assembly, r.ordinal, AssemblyMembership, 0)
       case AssemblyEnd => false
       case PourItem(pour) => r == Relation(InAssembly, pour.poured, pour.pourUnit, 0, PourMembership, 0)
       case SpliceItem(splice, second) =>
         r == if second then Relation(ConnectsTo, splice.id, splice.second, 1, RebarSpliceEnd, 0)
              else Relation(ConnectsTo, splice.id, splice.first, 0, RebarSpliceEnd, 0)
       case SurfaceItem(surface) =>
         && r == Relation(HostedOn, surface.surface, surface.host, 0, SurfaceObjectHost, 0)
         && IsKind(input.objects, surface.surface, SurfaceObject) && CanHost(input, surface.host)
       case JointItem(Some(row)) =>
         !row.hidden && r == Relation(ConnectsTo, row.primary, row.secondary, 0, ComponentConnection, row.id)
       case JointItem(None) => false
  }

  lemma LiveEdge(input: Input, source: Id, target: Id)
    ensures ValidEdge(input, KindsOf(input.objects), source, target) <==>
            IsLive(input, source) && IsLive(input, target) && source != target
  {
    hide KindsOf, IsKind;
    LiveByKind(input, source);
    LiveByKind(input, target);
  }

  lemma LiveByKind(input: Input, id: Id)
    ensures var kinds := KindsOf(input.objects);
      IsLive(input, id) <==> id != 0 && id in input.endpoints && id in kinds && IsModelElement(kinds[id])
  {
    hide KindsOf, IsKind;
    var kinds := KindsOf(input.objects);
    forall kind ensures IsKind(input.objects, id, kind) <==> id in kinds && kinds[id] == kind {
      KindsAreFirst(input.objects, id, kind);
    }
    if id in kinds { assert IsKind(input.objects, id, kinds[id]); }
  }

  lemma KindTests(input: Input, id: Id)
    ensures var kinds := KindsOf(input.objects);
      && (IsBar(input, id) <==> id in kinds && IsReinforcement(kinds[id]))
      && (CanHost(input, id) <==> id in kinds && IsHost(kinds[id]))
      && (IsKind(input.objects, id, SurfaceObject) <==> id in kinds && kinds[id].SurfaceObject?)
  {
    hide KindsOf, IsKind;
    forall kind ensures IsKind(input.objects, id, kind) <==>
        id in KindsOf(input.objects) && KindsOf(input.objects)[id] == kind {
      KindsAreFirst(input.objects, id, kind);
    }
  }

  /** What a fact emits is what it claims. */
  lemma StepClaims(input: Input, ledger: Ledger, item: Item)
    ensures var events := Step(input, KindsOf(input.objects), ledger, item).1;
      |events| == 1 && events[0].Emitted? ==>
        Claims(input, item, events[0].item) && !Settled(ledger, FactOf(events[0].item))
  {
    hide ValidEdge, KindsOf, IsLive, IsBar, CanHost, IsKind;
    var kinds := KindsOf(input.objects);
    var (next, events) := Step(input, kinds, ledger, item);
    if |events| == 1 && events[0].Emitted? {
      var r := events[0].item;
      LiveEdge(input, r.source, r.target);
      KindTests(input, r.source);
      KindTests(input, r.target);
    }
  }

  /** What a fact claims it also wishes. */
  lemma ClaimsAreWishes(input: Input, item: Item, r: Relation)
    requires Claims(input, item, r)
    ensures Wish(input, KindsOf(input.objects), item) == Some(FactOf(r))
  {
    hide ValidEdge, KindsOf, IsLive, IsBar, CanHost, IsKind;
    LiveEdge(input, r.source, r.target);
    KindTests(input, r.source);
    KindTests(input, r.target);
  }

  /** No earlier fact claims the pair, unless it is a membership. */
  ghost predicate IsFirst(input: Input, items: seq<Item>, i: nat, r: Relation) {
    && i < |items| && Claims(input, items[i], r)
    && (!r.kind.InAssembly? ==>
          forall j, other :: 0 <= j < i && Claims(input, items[j], other) ==> FactOf(other) != FactOf(r))
  }

  lemma {:induction false} EmittedByFirst(input: Input, ledger: Ledger, items: seq<Item>, k: nat) returns (i: nat)
    requires var stream := Stream(input, KindsOf(input.objects), ledger, items);
             k < |stream| && stream[k].Emitted?
    ensures var r := Stream(input, KindsOf(input.objects), ledger, items)[k].item;
      IsFirst(input, items, i, r) && !Settled(ledger, FactOf(r))
    decreases |items|
  {
    hide Step, Claims, KindsOf, Wish;
    var kinds := KindsOf(input.objects);
    var (next, events) := Step(input, kinds, ledger, items[0]);
    var r := Stream(input, kinds, ledger, items)[k].item;
    StepClaims(input, ledger, items[0]);
    if k < |events| {
      i := 0;
    } else {
      var later := EmittedByFirst(input, next, items[1..], k - |events|);
      i := later + 1;
      StepWishes(input, kinds, ledger, items[0], FactOf(r));
      RelatedIsSettled(input, kinds, ledger, items[0], FactOf(r));
      if !r.kind.InAssembly? {
        forall j, other | 0 <= j < i && Claims(input, items[j], other) ensures FactOf(other) != FactOf(r) {
          ClaimsAreWishes(input, items[j], other);
          if j > 0 { assert items[1..][j - 1] == items[j]; }
        }
      }
    }
  }

  lemma RelatedIsSettled(input: Input, kinds: map<Id, ObjectKind>, ledger: Ledger, item: Item, fact: Fact)
    ensures var (next, events) := Step(input, kinds, ledger, item);
      && (Settled(ledger, fact) ==> Settled(next, fact))
      && (Related(events, fact) && !fact.kind.InAssembly? ==> Settled(next, fact))
  {
    hide ValidEdge;
  }

  // ----- The facts are those of the tables -----

  lemma {:induction false} ParentFacts(objects: seq<Element>, item: Item)
    ensures item in ParentItems(objects) <==> item.ParentItem? && item.element in objects
  {
    if objects != [] { ParentFacts(objects[1..], item); }
  }

  lemma {:induction false} StoredFacts(rows: seq<Option<RelationRow>>, item: Item)
    ensures item in StoredItems(rows) <==> item.StoredItem? && item.row in rows
  {
    if rows != [] { StoredFacts(rows[1..], item); }
  }

  lemma {:induction false} JointFacts(rows: seq<Option<JointRow>>, item: Item)
    ensures item in JointItems(rows) <==> item.JointItem? && item.joint in rows
  {
    if rows != [] { JointFacts(rows[1..], item); }
  }

  lemma {:induction false} PourFacts(pours: seq<Pour>, item: Item)
    ensures item in PourItems(pours) <==> item.PourItem? && item.pour in pours
  {
    if pours != [] { PourFacts(pours[1..], item); }
  }

  lemma {:induction false} SpliceFacts(splices: seq<Splice>, item: Item)
    ensures item in SpliceItems(splices) <==> item.SpliceItem? && item.splice in splices
  {
    if splices != [] { SpliceFacts(splices[1..], item); }
  }

  lemma {:induction false} SurfaceFacts(surfaces: seq<SurfaceHost>, item: Item)
    ensures item in SurfaceItems(surfaces) <==> item.SurfaceItem? && item.surface in surfaces
  {
    if surfaces != [] { SurfaceFacts(surfaces[1..], item); }
  }

  lemma {:induction false} MemberFacts(assembly: Id, main: Id, members: seq<Id>, item: Item)
    ensures item in MemberItems(assembly, main, members) <==>
            item.MemberItem? && item.assembly == assembly && item.main == main && item.member in members
  {
    if members != [] { MemberFacts(assembly, main, members[1..], item); }
  }

  /** The fact is about a listed assembly with its main member, and about one of its listed members. */
  ghost predicate IsOfAssembly(input: Input, assemblies: seq<Id>, item: Item)
    requires forall a :: a in assemblies ==> a in input.mains
  {
    match item
    case MainItem(assembly, main) => assembly in assemblies && main == input.mains[assembly]
    case MemberItem(assembly, main, member) =>
      && assembly in assemblies && main == input.mains[assembly]
      && assembly in input.members && member in input.members[assembly]
    case AssemblyEnd => assemblies != []
    case _ => false
  }

  lemma {:induction false} AssemblyFacts(input: Input, assemblies: seq<Id>, item: Item)
    requires forall a :: a in assemblies ==> a in input.mains
    ensures item in AssemblyItems(input, assemblies) <==> IsOfAssembly(input, assemblies, item)
  {
    if assemblies != [] {
      var assembly := assemblies[0];
      assert assembly in assemblies;
      MemberFacts(assembly, input.mains[assembly], MembersOf(input, assembly), item);
      AssemblyFacts(input, assemblies[1..], item);
      assert forall a :: a in assemblies <==> a == assembly || a in assemblies[1..];
    }
  }

  /** The stream is made of the facts of the tables, no more and no fewer. */
  lemma FactsAreStored(input: Input, item: Item)
    requires WellFormed(input)
    ensures item in AllItems(input) <==>
            match item
            case ParentItem(element) => element in input.objects
            case StoredItem(row) => input.relations.Some? && row in input.relations.value
            case JointItem(row) => input.joints.Some? && row in input.joints.value
            case PourItem(pour) => pour in input.pours
            case SpliceItem(splice, _) => splice in input.splices
            case SurfaceItem(surface) => surface in input.surfaces
            case _ => IsOfAssembly(input, input.assemblies, item)
  {
    hide ParentItems, StoredItems, JointItems, PourItems, SpliceItems, SurfaceItems, AssemblyItems, AllItems, After;
    Unfold(input);
    ParentFacts(input.objects, item);
    StoredFacts(RowsOf(input.relations), item);
    AssemblyFacts(input, input.assemblies, item);
    PourFacts(input.pours, item);
    SpliceFacts(input.splices, item);
    SurfaceFacts(input.surfaces, item);
    JointFacts(RowsOf(input.joints), item);
  }

  // ----- The stream -----

  /**
   Every relation in the stream is claimed by a stored fact, with its kind, pair, origin and
   relation id, and its ordinal where none is counted; of the facts that claim the same pair
   it is the first one in the order of the phases, except that memberships are not merged.
   */
  lemma RelationsAreClaimed(input: Input, k: nat)
    requires WellFormed(input) && EmittedAt(input, k)
    ensures exists i: nat :: IsFirst(input, AllItems(input), i, OnePass(input)[k].item)
  {
    hide AllItems, IsFirst;
    var i := EmittedByFirst(input, EmptyLedger(), AllItems(input), k);
  }

  /** Every pair that a stored fact claims is related by the stream, in the way it is claimed. */
  lemma ClaimsAreRelated(input: Input, i: nat, r: Relation)
    requires WellFormed(input) && i < |AllItems(input)| && Claims(input, AllItems(input)[i], r)
    ensures exists k: nat :: EmittedAt(input, k) && FactOf(OnePass(input)[k].item) == FactOf(r)
  {
    hide AllItems, Wish, Claims, KindsOf;
    ClaimsAreWishes(input, AllItems(input)[i], r);
    assert Wished(input, KindsOf(input.objects), AllItems(input), FactOf(r));
    StreamsRelateWishes(input, FactOf(r));
    var k: nat :| k < |OnePass(input)| && OnePass(input)[k].Emitted? && FactOf(OnePass(input)[k].item) == FactOf(r);
    assert EmittedAt(input, k);
  }
}
