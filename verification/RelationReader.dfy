/**
 The batched reader of the semantic relation stream: a resumable machine of seven phases
 that may stop inside any of them when a batch is full.
 */
module RelationReader {
  import opened Batches
  import opened SemanticRelations
  import opened Wrappers

  class Reader {
    const input: Input
    const kinds: map<Id, ObjectKind>
    const batchSize: nat

    var phase: Phase
    var batch: seq<Relation>
    var objectOffset: nat
    var relationRow: nat
    var jointRow: nat
    var assemblyOffset: nat
    var memberOffset: nat
    var nextMemberOrdinal: nat
    var assemblyInitialized: bool
    var pourOffset: nat
    var spliceOffset: nat
    var secondEndpoint: bool
    var surfaceOffset: nat
    var subelements: set<(Id, Id)>
    var hosted: set<(Id, Id)>
    var connections: set<(Id, Id)>
    var childOrdinals: map<Id, nat>

    ghost predicate Valid()
      reads this
    {
      && WellFormed(input) && kinds == KindsOf(input.objects) && batchSize >= 1 && |batch| <= batchSize
      && objectOffset <= |input.objects|
      && relationRow <= |RowsOf(input.relations)| && jointRow <= |RowsOf(input.joints)|
      && assemblyOffset <= |input.assemblies| && pourOffset <= |input.pours|
      && spliceOffset <= |input.splices| && surfaceOffset <= |input.surfaces|
      && (phase.Parents? || phase.StoredRelations? ==> assemblyOffset == 0)
      && (phase.Parents? ==> relationRow == 0)
      && (PhasesLeft(phase) >= 4 ==> spliceOffset == 0 && !secondEndpoint)
      && (PhasesLeft(phase) >= 5 ==> pourOffset == 0)
      && (PhasesLeft(phase) >= 3 ==> surfaceOffset == 0)
      && (PhasesLeft(phase) >= 2 ==> jointRow == 0)
      && (!assemblyInitialized ==> memberOffset == 0)
      && (assemblyOffset == |input.assemblies| || PhasesLeft(phase) >= 6 ==> !assemblyInitialized)
      && (assemblyOffset < |input.assemblies| ==> memberOffset <= |MembersOf(input, input.assemblies[assemblyOffset])|)
      && (secondEndpoint ==> spliceOffset < |input.splices|)
    }

    /** The deduplication state as the one-pass stream sees it. */
    ghost function State(): Ledger
      reads this
    {
      Ledger(subelements, hosted, connections, childOrdinals, nextMemberOrdinal)
    }

    /** The facts the current phase has not consumed. */
    ghost function Here(): seq<Item>
      requires Valid()
      reads this
    {
      match phase
      case Parents => ParentItems(input.objects[objectOffset..])
      case StoredRelations => StoredItems(RowsOf(input.relations)[relationRow..])
      case Assemblies =>
        if assemblyOffset == |input.assemblies| then []
        else AssemblyFrom(input, input.assemblies[assemblyOffset], assemblyInitialized, memberOffset)
             + AssemblyItems(input, input.assemblies[assemblyOffset + 1..])
      case Pours => PourItems(input.pours[pourOffset..])
      case RebarSplices =>
        if secondEndpoint then [SpliceItem(input.splices[spliceOffset], true)]
            + SpliceItems(input.splices[spliceOffset + 1..])
        else SpliceItems(input.splices[spliceOffset..])
      case SurfaceObjects => SurfaceItems(input.surfaces[surfaceOffset..])
      case ComponentConnections => JointItems(RowsOf(input.joints)[jointRow..])
      case Done => []
    }

    ghost function Remaining(): seq<Item>
      requires Valid()
      reads this
    {
      Here() + After(input, phase)
    }

    /** Everything the reader will still emit, in one pass. */
    ghost function Pending(): seq<RelationEvent>
      requires Valid()
      reads this
    {
      Stream(input, kinds, State(), Remaining())
    }

    /** The open batch followed by everything still to come. */
    ghost function Outlook(): seq<RelationEvent>
      requires Valid()
      reads this
    {
      Events(batch) + Pending()
    }

    constructor (input: Input, batchSize: nat)
      requires WellFormed(input) && batchSize >= 1
      ensures Valid() && this.input == input && this.batchSize == batchSize && batch == []
      ensures Pending() == OnePass(input)
    {
      this.input, this.batchSize, this.kinds := input, batchSize, KindsOf(input.objects);
      phase, batch := Parents, [];
      objectOffset, relationRow, jointRow, assemblyOffset, memberOffset, nextMemberOrdinal := 0, 0, 0, 0, 0, 1;
      assemblyInitialized, pourOffset, spliceOffset, secondEndpoint, surfaceOffset := false, 0, 0, false, 0;
      subelements, hosted, connections, childOrdinals := {}, {}, {}, map[];
      new;
      assert input.objects[0..] == input.objects;
    }

    // ----- Adding one edge to the open batch -----

    predicate IsValidEdge(source: Id, target: Id) {
      ValidEdge(input, kinds, source, target)
    }

    method AppendSubelement(parent: Id, child: Id, origin: Origin, relationId: Id)
      modifies this`batch, this`subelements, this`childOrdinals
      ensures var (next, events) := AddSubelement(input, kinds, old(State()), parent, child, origin, relationId);
              State() == next && Events(batch) == Events(old(batch)) + events
    {
      if !IsValidEdge(parent, child) || (parent, child) in subelements { return; }
      subelements := subelements + {(parent, child)};
      var ordinal := if parent in childOrdinals then childOrdinals[parent] else 0;
      batch := batch + [Relation(Subelement, parent, child, ordinal, origin, relationId)];
      childOrdinals := childOrdinals[parent := ordinal + 1];
    }

    /** Records the pair first and takes it back when the kinds do not fit. */
    method AppendHosted(source: Id, host: Id, eligible: bool, origin: Origin, relationId: Id)
      modifies this`batch, this`hosted
      ensures var (next, events) := AddHosted(input, kinds, old(State()), source, host, eligible, origin, relationId);
              State() == next && Events(batch) == Events(old(batch)) + events
    {
      if !IsValidEdge(source, host) || (source, host) in hosted { return; }
      ghost var before := hosted;
      hosted := hosted + {(source, host)};
      if !eligible {
        hosted := hosted - {(source, host)};
        assert hosted == before;
        return;
      }
      batch := batch + [Relation(HostedOn, source, host, 0, origin, relationId)];
    }

    method AppendConnection(primary: Id, secondary: Id, relationId: Id, origin: Origin, ordinal: nat)
      modifies this`batch, this`connections
      ensures var (next, events) :=
          AddConnection(input, kinds, old(State()), primary, secondary, relationId, origin, ordinal);
              State() == next && Events(batch) == Events(old(batch)) + events
    {
      if !IsValidEdge(primary, secondary) || (primary, secondary) in connections { return; }
      connections := connections + {(primary, secondary)};
      batch := batch + [Relation(ConnectsTo, primary, secondary, ordinal, origin, relationId)];
    }

    // ----- The phases -----

    /** Everything of the current phase has been consumed. */
    ghost predicate Exhausted()
      reads this
    {
      match phase
      case Parents => objectOffset == |input.objects|
      case StoredRelations => relationRow == |RowsOf(input.relations)|
      case Assemblies => assemblyOffset == |input.assemblies|
      case Pours => pourOffset == |input.pours|
      case RebarSplices => spliceOffset == |input.splices|
      case SurfaceObjects => surfaceOffset == |input.surfaces|
      case ComponentConnections => jointRow == |RowsOf(input.joints)|
      case Done => false
    }

    method Enter(next: Phase)
      requires Valid() && Exhausted() && PhasesLeft(next) == PhasesLeft(phase) - 1
      modifies this`phase
      ensures Valid() && phase == next && Outlook() == old(Outlook())
    {
      hide Stream, After, ParentItems, StoredItems, JointItems, PourItems, SpliceItems, SurfaceItems;
      hide AssemblyItems, MemberItems, Events, KindsOf, WellFormed, RowsOf;
      ghost var remaining := Remaining();
      NothingHere();
      NextPhase(input, phase);
      phase := next;
      assert Remaining() == remaining;
    }

    lemma DoneHasNothing()
      requires Valid() && phase.Done?
      ensures Here() == []
    {
      hide Stream, After, KindsOf, WellFormed, RowsOf;
    }

    lemma NothingHere()
      requires Valid() && Exhausted()
      ensures Here() == []
    {
      hide Stream, After, KindsOf, WellFormed, RowsOf;
    }

    method EmitParents()
      requires Valid() && phase.Parents? && |batch| < batchSize
      modifies this
      ensures Valid() && Outlook() == old(Outlook()) && Advanced(old(phase))
    {
      hide Stream, After, ParentItems, StoredItems, JointItems, PourItems, SpliceItems, SurfaceItems;
      hide AddSubelement, AddHosted, AddConnection, Events, KindsOf, WellFormed;
      while objectOffset < |input.objects| && |batch| < batchSize
        invariant Valid() && phase.Parents? && Outlook() == old(Outlook())
        decreases |input.objects| - objectOffset
      {
        ghost var ledger, events, rest :=
            State(), Events(batch), ParentItems(input.objects[objectOffset + 1..]) + After(input, phase);
        var element := input.objects[objectOffset];
        ParentHead(input.objects, objectOffset, After(input, phase));
        assert Remaining() == [ParentItem(element)] + rest;
        Consume(input, kinds, ledger, ParentItem(element), rest, events);
        objectOffset := objectOffset + 1;
        AppendSubelement(element.parent, element.id, ObjectParent, 0);
        assert Remaining() == rest;
      }
      if objectOffset == |input.objects| {
        Enter(StoredRelations);
      }
    }

    method AppendStored(row: RelationRow)
      modifies this`batch, this`subelements, this`childOrdinals, this`hosted
      ensures var (next, events) := Step(input, kinds, old(State()), StoredItem(Some(row)));
              State() == next && Events(batch) == Events(old(batch)) + events
    {
      hide AddSubelement, AddHosted, Events;
      if row.hidden {
      } else if row.relation == 7 || row.relation == 11 || row.relation == 12 || row.relation == 73 ||
                row.relation == 96 || row.relation == 97 || row.relation == 60005 {
        AppendSubelement(row.source, row.target, StoredRelation, row.id);
      } else if row.relation == 47 {
        AppendHosted(row.target, row.source,
                     row.target in kinds && row.source in kinds && IsReinforcement(kinds[row.target])
                         && IsHost(kinds[row.source]),
                     RebarHost, row.id);
      }
    }

    /** Reads one relation row. */
    method ReadStored() returns (ok: bool)
      requires Valid() && phase.StoredRelations? && |batch| < batchSize && relationRow < |RowsOf(input.relations)|
      modifies this
      ensures Valid() && phase.StoredRelations? && relationRow == old(relationRow) + 1
      ensures ok ==> Outlook() == old(Outlook())
      ensures !ok ==> old(Outlook()) == Events(batch) + [Failed] + Pending() && |batch| < batchSize
    {
      hide Stream, After, ParentItems, StoredItems, JointItems, PourItems, SpliceItems, SurfaceItems;
      hide AddSubelement, AddHosted, AddConnection, Events, KindsOf, WellFormed;
      var rows := RowsOf(input.relations);
      ghost var ledger, events, rest :=
          State(), Events(batch), StoredItems(rows[relationRow + 1..]) + After(input, phase);
      var record := rows[relationRow];
      StoredHead(rows, relationRow, After(input, phase));
      assert Remaining() == [StoredItem(record)] + rest;
      Consume(input, kinds, ledger, StoredItem(record), rest, events);
      relationRow := relationRow + 1;
      assert Remaining() == rest;
      if record.None? { return false; }
      AppendStored(record.value);
      assert Remaining() == rest;
      return true;
    }

    /** Reads relation rows; a row outside the payload fails and drops the open batch. */
    method EmitStoredRelations() returns (ok: bool)
      requires Valid() && phase.StoredRelations? && |batch| < batchSize
      modifies this
      ensures Valid()
      ensures ok ==> Outlook() == old(Outlook()) && Advanced(old(phase))
      ensures !ok ==> old(Outlook()) == Events(batch) + [Failed] + Pending() && |batch| < batchSize
    {
      hide Stream, After, ParentItems, StoredItems, JointItems, PourItems, SpliceItems, SurfaceItems;
      hide AddSubelement, AddHosted, AddConnection, Events, KindsOf, WellFormed;
      if input.relations.None? {
        Enter(Assemblies);
        return true;
      }
      var rows := input.relations.value;
      while relationRow < |rows| && |batch| < batchSize
        invariant Valid() && phase.StoredRelations? && Outlook() == old(Outlook())
        decreases |rows| - relationRow
      {
        var read := ReadStored();
        if !read { return false; }
      }
      if relationRow == |rows| {
        Enter(Assemblies);
      }
      return true;
    }

    /** Emits an assembly's main member first, then its members in stored order. */
    method EmitAssemblies()
      requires Valid() && phase.Assemblies? && |batch| < batchSize
      modifies this
      ensures Valid() && Outlook() == old(Outlook()) && Advanced(old(phase))
    {
      hide Stream, After, ParentItems, StoredItems, JointItems, PourItems, SpliceItems, SurfaceItems;
      hide MemberItems, AssemblyItems, AddSubelement, AddHosted, AddConnection, Events, KindsOf, WellFormed;
      while assemblyOffset < |input.assemblies| && |batch| < batchSize
        invariant Valid() && phase.Assemblies? && Outlook() == old(Outlook())
        decreases |input.assemblies| - assemblyOffset
      {
        if !assemblyInitialized {
          EmitMain();
          if |batch| == batchSize { return; }
        }
        EmitMembers();
        if memberOffset < |MembersOf(input, input.assemblies[assemblyOffset])| { return; }
        FinishAssembly();
      }
      if assemblyOffset == |input.assemblies| {
        Enter(Pours);
      }
    }

    method EmitMain()
      requires Valid() && phase.Assemblies? && |batch| < batchSize && assemblyOffset < |input.assemblies|
      requires !assemblyInitialized
      modifies this
      ensures Valid() && phase.Assemblies? && Outlook() == old(Outlook())
      ensures assemblyOffset == old(assemblyOffset) && assemblyInitialized
    {
      hide Stream, After, ParentItems, StoredItems, JointItems, PourItems, SpliceItems, SurfaceItems;
      hide MemberItems, AssemblyItems, AddSubelement, AddHosted, AddConnection, Events, KindsOf, AssemblyFrom;
      var assembly := input.assemblies[assemblyOffset];
      var main := input.mains[assembly];
      ghost var ledger, events := State(), Events(batch);
      ghost var later := AssemblyItems(input, input.assemblies[assemblyOffset + 1..]);
      MainStep(input, assembly, later, After(input, phase));
      Consume(input, kinds, ledger, MainItem(assembly, main),
              AssemblyFrom(input, assembly, true, 0) + later + After(input, phase), events);
      if IsValidEdge(main, assembly) {
        batch := batch + [Relation(InAssembly, main, assembly, 0, AssemblyMembership, 0)];
        EventsSnoc(old(batch), Relation(InAssembly, main, assembly, 0, AssemblyMembership, 0));
      }
      assemblyInitialized := true;
      nextMemberOrdinal := 1;
    }

    method EmitMembers()
      requires Valid() && phase.Assemblies? && |batch| < batchSize && assemblyOffset < |input.assemblies|
      requires assemblyInitialized
      modifies this
      ensures Valid() && phase.Assemblies? && Outlook() == old(Outlook())
      ensures assemblyOffset == old(assemblyOffset) && assemblyInitialized
      ensures memberOffset < |MembersOf(input, input.assemblies[assemblyOffset])| ==> |batch| == batchSize
    {
      hide Stream, After, ParentItems, StoredItems, JointItems, PourItems, SpliceItems, SurfaceItems;
      hide MemberItems, AssemblyItems, AddSubelement, AddHosted, AddConnection, Events, KindsOf, WellFormed;
      var assembly := input.assemblies[assemblyOffset];
      var members := MembersOf(input, assembly);
      while memberOffset < |members| && |batch| < batchSize
        invariant Valid() && phase.Assemblies? && Outlook() == old(Outlook())
        invariant assemblyOffset == old(assemblyOffset) && assemblyInitialized
        decreases |members| - memberOffset
      {
        EmitMember();
      }
    }

    method EmitMember()
      requires Valid() && phase.Assemblies? && |batch| < batchSize && assemblyOffset < |input.assemblies|
      requires assemblyInitialized
      requires memberOffset < |MembersOf(input, input.assemblies[assemblyOffset])|
      modifies this
      ensures Valid() && phase.Assemblies? && Outlook() == old(Outlook())
      ensures assemblyOffset == old(assemblyOffset) && assemblyInitialized && memberOffset == old(memberOffset) + 1
    {
      hide Stream, After, ParentItems, StoredItems, JointItems, PourItems, SpliceItems, SurfaceItems;
      hide MemberItems, AssemblyItems, AddSubelement, AddHosted, AddConnection, Events, KindsOf, AssemblyFrom;
      var assembly := input.assemblies[assemblyOffset];
      var main, members := input.mains[assembly], MembersOf(input, assembly);
      var member := members[memberOffset];
      ghost var ledger, events := State(), Events(batch);
      ghost var later := AssemblyItems(input, input.assemblies[assemblyOffset + 1..]);
      MemberStep(input, assembly, memberOffset, later, After(input, phase));
      Consume(input, kinds, ledger, MemberItem(assembly, main, member),
              AssemblyFrom(input, assembly, true, memberOffset + 1) + later + After(input, phase), events);
      memberOffset := memberOffset + 1;
      if member != main && member != assembly && IsValidEdge(member, assembly) {
        batch := batch + [Relation(InAssembly, member, assembly, nextMemberOrdinal, AssemblyMembership, 0)];
        EventsSnoc(old(batch), Relation(InAssembly, member, assembly, nextMemberOrdinal, AssemblyMembership, 0));
        nextMemberOrdinal := nextMemberOrdinal + 1;
      }
    }

    /** Resets the ordinal and moves to the next assembly. */
    method FinishAssembly()
      requires Valid() && phase.Assemblies? && assemblyOffset < |input.assemblies| && assemblyInitialized
      requires memberOffset == |MembersOf(input, input.assemblies[assemblyOffset])|
      modifies this
      ensures Valid() && phase.Assemblies? && Outlook() == old(Outlook()) && batch == old(batch)
      ensures assemblyOffset == old(assemblyOffset) + 1
    {
      hide Stream, After, ParentItems, StoredItems, JointItems, PourItems, SpliceItems, SurfaceItems;
      hide MemberItems, AssemblyItems, AddSubelement, AddHosted, AddConnection, Events, KindsOf, AssemblyFrom;
      hide Step;
      ghost var ledger, events := State(), Events(batch);
      ghost var later := AssemblyItems(input, input.assemblies[assemblyOffset + 1..]);
      EndStep(input, input.assemblies[assemblyOffset], later, After(input, phase));
      ghost var rest := later + After(input, phase);
      assert Remaining() == [AssemblyEnd] + rest;
      ConsumeEnd(input, kinds, ledger, rest);
      assemblyOffset := assemblyOffset + 1;
      memberOffset := 0;
      nextMemberOrdinal := 1;
      assemblyInitialized := false;
      AssemblyHead(input, assemblyOffset);
      assert State() == ledger.(memberOrdinal := 1);
      assert Here() == later;
      assert Remaining() == rest;
    }

    method EmitPours()
      requires Valid() && phase.Pours? && |batch| < batchSize
      modifies this
      ensures Valid() && Outlook() == old(Outlook()) && Advanced(old(phase))
    {
      hide Stream, After, ParentItems, StoredItems, JointItems, PourItems, SpliceItems, SurfaceItems;
      hide AddSubelement, AddHosted, AddConnection, Events, KindsOf, WellFormed;
      while pourOffset < |input.pours| && |batch| < batchSize
        invariant Valid() && phase.Pours? && Outlook() == old(Outlook())
        decreases |input.pours| - pourOffset
      {
        ghost var ledger, events, rest :=
            State(), Events(batch), PourItems(input.pours[pourOffset + 1..]) + After(input, phase);
        var pour := input.pours[pourOffset];
        PourHead(input.pours, pourOffset, After(input, phase));
        assert Remaining() == [PourItem(pour)] + rest;
        Consume(input, kinds, ledger, PourItem(pour), rest, events);
        pourOffset := pourOffset + 1;
        if IsValidEdge(pour.poured, pour.pourUnit) {
          EventsSnoc(batch, Relation(InAssembly, pour.poured, pour.pourUnit, 0, PourMembership, 0));
          batch := batch + [Relation(InAssembly, pour.poured, pour.pourUnit, 0, PourMembership, 0)];
        }
        assert Remaining() == rest && State() == ledger;
      }
      if pourOffset == |input.pours| {
        Enter(RebarSplices);
      }
    }

    method EmitSplices()
      requires Valid() && phase.RebarSplices? && |batch| < batchSize
      modifies this
      ensures Valid() && Outlook() == old(Outlook()) && Advanced(old(phase))
    {
      hide Stream, After, ParentItems, StoredItems, JointItems, PourItems, SpliceItems, SurfaceItems;
      hide AddSubelement, AddHosted, AddConnection, Events, KindsOf, WellFormed;
      while spliceOffset < |input.splices| && |batch| < batchSize
        invariant Valid() && phase.RebarSplices? && Outlook() == old(Outlook())
        decreases |input.splices| - spliceOffset
      {
        if !secondEndpoint {
          EmitFirstEnd();
          if |batch| == batchSize { return; }
        }
        EmitSecondEnd();
      }
      if spliceOffset == |input.splices| {
        Enter(SurfaceObjects);
      }
    }

    method EmitFirstEnd()
      requires Valid() && phase.RebarSplices? && |batch| < batchSize && spliceOffset < |input.splices|
      requires !secondEndpoint
      modifies this
      ensures Valid() && phase.RebarSplices? && Outlook() == old(Outlook())
      ensures spliceOffset == old(spliceOffset) && secondEndpoint
    {
      hide Stream, After, ParentItems, StoredItems, JointItems, PourItems, SpliceItems, SurfaceItems;
      hide AddSubelement, AddHosted, AddConnection, Events, KindsOf, WellFormed;
      var splice := input.splices[spliceOffset];
      ghost var ledger, events, later := State(), Events(batch), SpliceItems(input.splices[spliceOffset + 1..]);
      SpliceHead(input.splices, spliceOffset, After(input, phase));
      Consume(input, kinds, ledger, SpliceItem(splice, false),
              [SpliceItem(splice, true)] + (later + After(input, phase)), events);
      AppendConnection(splice.id, splice.first, 0, RebarSpliceEnd, 0);
      secondEndpoint := true;
      SecondEnd(splice, later, After(input, phase));
    }

    method EmitSecondEnd()
      requires Valid() && phase.RebarSplices? && |batch| < batchSize && spliceOffset < |input.splices| && secondEndpoint
      modifies this
      ensures Valid() && phase.RebarSplices? && Outlook() == old(Outlook())
      ensures spliceOffset == old(spliceOffset) + 1 && !secondEndpoint
    {
      hide Stream, After, ParentItems, StoredItems, JointItems, PourItems, SpliceItems, SurfaceItems;
      hide AddSubelement, AddHosted, AddConnection, Events, KindsOf, WellFormed;
      var splice := input.splices[spliceOffset];
      ghost var ledger, events, later := State(), Events(batch), SpliceItems(input.splices[spliceOffset + 1..]);
      SecondEnd(splice, later, After(input, phase));
      Consume(input, kinds, ledger, SpliceItem(splice, true), later + After(input, phase), events);
      AppendConnection(splice.id, splice.second, 0, RebarSpliceEnd, 1);
      secondEndpoint := false;
      spliceOffset := spliceOffset + 1;
    }

    /** Emits the host of one surface object. */
    method EmitSurfaceHost()
      requires Valid() && phase.SurfaceObjects? && |batch| < batchSize && surfaceOffset < |input.surfaces|
      modifies this
      ensures Valid() && phase.SurfaceObjects? && surfaceOffset == old(surfaceOffset) + 1
      ensures Outlook() == old(Outlook())
    {
      hide Stream, After, ParentItems, StoredItems, JointItems, PourItems, SpliceItems, SurfaceItems;
      hide AddSubelement, AddHosted, AddConnection, Events, KindsOf, WellFormed;
      ghost var ledger, events, rest :=
          State(), Events(batch), SurfaceItems(input.surfaces[surfaceOffset + 1..]) + After(input, phase);
      var surface := input.surfaces[surfaceOffset];
      SurfaceHead(input.surfaces, surfaceOffset, After(input, phase));
      assert Remaining() == [SurfaceItem(surface)] + rest;
      Consume(input, kinds, ledger, SurfaceItem(surface), rest, events);
      surfaceOffset := surfaceOffset + 1;
      AppendHosted(surface.surface, surface.host,
                   surface.surface in kinds && surface.host in kinds && kinds[surface.surface].SurfaceObject?
                       && IsHost(kinds[surface.host]),
                   SurfaceObjectHost, 0);
      assert Remaining() == rest;
    }

    method EmitSurfaceHosts()
      requires Valid() && phase.SurfaceObjects? && |batch| < batchSize
      modifies this
      ensures Valid() && Outlook() == old(Outlook()) && Advanced(old(phase))
    {
      hide Stream, After, ParentItems, StoredItems, JointItems, PourItems, SpliceItems, SurfaceItems;
      hide AddSubelement, AddHosted, AddConnection, Events, KindsOf, WellFormed;
      while surfaceOffset < |input.surfaces| && |batch| < batchSize
        invariant Valid() && phase.SurfaceObjects? && Outlook() == old(Outlook())
        decreases |input.surfaces| - surfaceOffset
      {
        EmitSurfaceHost();
      }
      if surfaceOffset == |input.surfaces| {
        Enter(ComponentConnections);
      }
    }

    /** Reads one joint row. */
    method ReadJoint() returns (ok: bool)
      requires Valid() && phase.ComponentConnections? && |batch| < batchSize && jointRow < |RowsOf(input.joints)|
      modifies this
      ensures Valid() && phase.ComponentConnections? && jointRow == old(jointRow) + 1
      ensures ok ==> Outlook() == old(Outlook())
      ensures !ok ==> old(Outlook()) == Events(batch) + [Failed] + Pending() && |batch| < batchSize
    {
      hide Stream, After, ParentItems, StoredItems, JointItems, PourItems, SpliceItems, SurfaceItems;
      hide AddSubelement, AddHosted, AddConnection, Events, KindsOf, WellFormed;
      var rows := RowsOf(input.joints);
      ghost var ledger, events, rest := State(), Events(batch), JointItems(rows[jointRow + 1..]) + After(input, phase);
      var record := rows[jointRow];
      JointHead(rows, jointRow, After(input, phase));
      assert Remaining() == [JointItem(record)] + rest;
      Consume(input, kinds, ledger, JointItem(record), rest, events);
      jointRow := jointRow + 1;
      assert Remaining() == rest;
      if record.None? { return false; }
      var row := record.value;
      if !row.hidden {
        AppendConnection(row.primary, row.secondary, row.id, ComponentConnection, 0);
      }
      assert Remaining() == rest;
      return true;
    }

    method EmitConnections() returns (ok: bool)
      requires Valid() && phase.ComponentConnections? && |batch| < batchSize
      modifies this
      ensures Valid()
      ensures ok ==> Outlook() == old(Outlook()) && Advanced(old(phase))
      ensures !ok ==> old(Outlook()) == Events(batch) + [Failed] + Pending() && |batch| < batchSize
    {
      hide Stream, After, ParentItems, StoredItems, JointItems, PourItems, SpliceItems, SurfaceItems;
      hide AddSubelement, AddHosted, AddConnection, Events, KindsOf, WellFormed;
      if input.joints.None? {
        Enter(Done);
        return true;
      }
      var rows := input.joints.value;
      while jointRow < |rows| && |batch| < batchSize
        invariant Valid() && phase.ComponentConnections? && Outlook() == old(Outlook())
        decreases |rows| - jointRow
      {
        var read := ReadJoint();
        if !read { return false; }
      }
      if jointRow == |rows| {
        Enter(Done);
      }
      return true;
    }

    /**
     Fills the next batch. What was pending is either the batch followed by what is pending
     now, or, when a row cannot be read, the dropped open batch, the failure, and the rest.
     A batch of relations is never empty, and it is only ever short at the end.
     */
    method Next() returns (result: Batch<Relation>)
      requires Valid()
      modifies this
      ensures Valid()
      ensures result.End? ==> old(Pending()) == [] && Pending() == []
      ensures result.Items? ==> old(Pending()) == Events(result.items) + Pending()
      ensures result.Items? ==> 1 <= |result.items| <= batchSize && (|result.items| < batchSize ==> Pending() == [])
      ensures result.Failure? ==> |batch| < batchSize && old(Pending()) == Events(batch) + [Failed] + Pending()
    {
      hide Stream, After, Step, KindsOf, WellFormed, Here;
      OpenBatch();
      while |batch| < batchSize && !phase.Done?
        invariant Valid() && Outlook() == old(Pending())
        decreases PhasesLeft(phase), batchSize - |batch|
      {
        var ok := EmitPhase();
        if !ok { return Failure; }
      }
      if phase.Done? {
        NothingLeft(input, kinds, State());
        DoneHasNothing();
        assert Remaining() == [];
      }
      if batch == [] && phase.Done? { return End; }
      return Items(batch);
    }

    method OpenBatch()
      requires Valid()
      modifies this`batch
      ensures Valid() && batch == [] && Outlook() == old(Pending())
    {
      hide Stream, After, Step, KindsOf, WellFormed, ParentItems, StoredItems, JointItems, PourItems;
      hide SpliceItems, SurfaceItems, AssemblyItems, Events;
      NoEvents<Relation>();
      batch := [];
    }

    method EmitPhase() returns (ok: bool)
      requires Valid() && !phase.Done? && |batch| < batchSize
      modifies this
      ensures Valid()
      ensures ok ==> Outlook() == old(Outlook()) && Advanced(old(phase))
      ensures !ok ==> old(Outlook()) == Events(batch) + [Failed] + Pending() && |batch| < batchSize
    {
      hide Stream, After, Step, KindsOf, Here, Remaining;
      ok := true;
      match phase
      case Parents => EmitParents();
      case StoredRelations => ok := EmitStoredRelations();
      case Assemblies => EmitAssemblies();
      case Pours => EmitPours();
      case RebarSplices => EmitSplices();
      case SurfaceObjects => EmitSurfaceHosts();
      case ComponentConnections => ok := EmitConnections();
    }

    /** The batch is full, or the machine has moved to a later phase. */
    ghost predicate Advanced(before: Phase)
      reads this
    {
      PhasesLeft(phase) <= PhasesLeft(before) && (|batch| == batchSize || PhasesLeft(phase) < PhasesLeft(before))
    }
  }

  /** Consuming one fact moves its events from the pending stream to the open batch. */
  lemma Consume(input: Input, kinds: map<Id, ObjectKind>, ledger: Ledger, item: Item, rest: seq<Item>,
                events: seq<RelationEvent>)
    ensures var (next, more) := Step(input, kinds, ledger, item);
            events + Stream(input, kinds, ledger, [item] + rest) == events + more + Stream(input, kinds, next, rest)
  {
    assert ([item] + rest)[1..] == rest;
  }

  lemma ConsumeEnd(input: Input, kinds: map<Id, ObjectKind>, ledger: Ledger, rest: seq<Item>)
    ensures Stream(input, kinds, ledger, [AssemblyEnd] + rest)
              == Stream(input, kinds, ledger.(memberOrdinal := 1), rest)
  {
    Consume(input, kinds, ledger, AssemblyEnd, rest, []);
  }

  // ----- The first fact of what remains of a phase -----

  lemma ParentHead(objects: seq<Element>, k: nat, rest: seq<Item>)
    requires k < |objects|
    ensures ParentItems(objects[k..]) + rest == [ParentItem(objects[k])] + (ParentItems(objects[k + 1..]) + rest)
  {
    assert objects[k..][1..] == objects[k + 1..];
  }

  lemma StoredHead(rows: seq<Option<RelationRow>>, k: nat, rest: seq<Item>)
    requires k < |rows|
    ensures StoredItems(rows[k..]) + rest == [StoredItem(rows[k])] + (StoredItems(rows[k + 1..]) + rest)
  {
    assert rows[k..][1..] == rows[k + 1..];
  }

  lemma JointHead(rows: seq<Option<JointRow>>, k: nat, rest: seq<Item>)
    requires k < |rows|
    ensures JointItems(rows[k..]) + rest == [JointItem(rows[k])] + (JointItems(rows[k + 1..]) + rest)
  {
    assert rows[k..][1..] == rows[k + 1..];
  }

  lemma PourHead(pours: seq<Pour>, k: nat, rest: seq<Item>)
    requires k < |pours|
    ensures PourItems(pours[k..]) + rest == [PourItem(pours[k])] + (PourItems(pours[k + 1..]) + rest)
  {
    assert pours[k..][1..] == pours[k + 1..];
  }

  lemma SurfaceHead(surfaces: seq<SurfaceHost>, k: nat, rest: seq<Item>)
    requires k < |surfaces|
    ensures SurfaceItems(surfaces[k..]) + rest == [SurfaceItem(surfaces[k])] + (SurfaceItems(surfaces[k + 1..]) + rest)
  {
    assert surfaces[k..][1..] == surfaces[k + 1..];
  }

  lemma SpliceHead(splices: seq<Splice>, k: nat, rest: seq<Item>)
    requires k < |splices|
    ensures SpliceItems(splices[k..]) + rest ==
            [SpliceItem(splices[k], false)] + ([SpliceItem(splices[k], true)] + (SpliceItems(splices[k + 1..]) + rest))
  {
    assert splices[k..][1..] == splices[k + 1..];
  }

  lemma SecondEnd(splice: Splice, later: seq<Item>, rest: seq<Item>)
    ensures [SpliceItem(splice, true)] + later + rest == [SpliceItem(splice, true)] + (later + rest)
  {
  }

  /** A phase that has run out hands over to the whole of the next one. */
  lemma NextPhase(input: Input, phase: Phase)
    requires WellFormed(input)
    ensures ParentItems([]) == [] && StoredItems([]) == [] && JointItems([]) == []
    ensures PourItems([]) == [] && SpliceItems([]) == [] && SurfaceItems([]) == []
    ensures RowsOf(input.relations)[0..] == RowsOf(input.relations) && RowsOf(input.joints)[0..] == RowsOf(input.joints)
    ensures phase.Parents? ==>
              [] + After(input, phase) == StoredItems(RowsOf(input.relations)[0..]) + After(input, StoredRelations)
    ensures phase.StoredRelations? ==> [] + After(input, phase) == AssemblyStart(input) + After(input, Assemblies)
    ensures phase.Assemblies? ==> [] + After(input, phase) == PourItems(input.pours[0..]) + After(input, Pours)
    ensures phase.Pours? ==> [] + After(input, phase) == SpliceItems(input.splices[0..]) + After(input, RebarSplices)
    ensures phase.RebarSplices? ==>
              [] + After(input, phase) == SurfaceItems(input.surfaces[0..]) + After(input, SurfaceObjects)
    ensures phase.SurfaceObjects? ==>
              [] + After(input, phase) == JointItems(RowsOf(input.joints)[0..]) + After(input, ComponentConnections)
    ensures phase.ComponentConnections? ==> [] + After(input, phase) == [] + After(input, Done)
  {
    assert RowsOf(input.relations)[0..] == RowsOf(input.relations) && RowsOf(input.joints)[0..] == RowsOf(input.joints);
    assert input.pours[0..] == input.pours && input.splices[0..] == input.splices
        && input.surfaces[0..] == input.surfaces;
    AssemblyStartIsAll(input);
  }

  /** The facts of one assembly from a member on, its main member included or not. */
  ghost function AssemblyFrom(input: Input, assembly: Id, initialized: bool, member: nat): seq<Item>
    requires assembly in input.mains && member <= |MembersOf(input, assembly)|
  {
    (if initialized then [] else [MainItem(assembly, input.mains[assembly])])
    + (MemberItems(assembly, input.mains[assembly], MembersOf(input, assembly)[member..]) + [AssemblyEnd])
  }

  ghost function AssemblyStart(input: Input): seq<Item>
    requires WellFormed(input)
  {
    if input.assemblies == [] then []
    else AssemblyFrom(input, input.assemblies[0], false, 0) + AssemblyItems(input, input.assemblies[1..])
  }

  lemma AssemblyStartIsAll(input: Input)
    requires WellFormed(input)
    ensures AssemblyStart(input) == AssemblyItems(input, input.assemblies)
  {
    if input.assemblies != [] {
      var members := MembersOf(input, input.assemblies[0]);
      assert members[0..] == members;
    }
  }

  lemma MainStep(input: Input, assembly: Id, later: seq<Item>, after: seq<Item>)
    requires assembly in input.mains
    ensures AssemblyFrom(input, assembly, false, 0) + later + after ==
            [MainItem(assembly, input.mains[assembly])] + (AssemblyFrom(input, assembly, true, 0) + later + after)
  {
  }

  lemma MemberStep(input: Input, assembly: Id, k: nat, later: seq<Item>, after: seq<Item>)
    requires assembly in input.mains && k < |MembersOf(input, assembly)|
    ensures AssemblyFrom(input, assembly, true, k) + later + after ==
            [MemberItem(assembly, input.mains[assembly], MembersOf(input, assembly)[k])]
            + (AssemblyFrom(input, assembly, true, k + 1) + later + after)
  {
    var members := MembersOf(input, assembly);
    assert members[k..][1..] == members[k + 1..];
  }

  lemma EndStep(input: Input, assembly: Id, later: seq<Item>, after: seq<Item>)
    requires assembly in input.mains
    ensures AssemblyFrom(input, assembly, true, |MembersOf(input, assembly)|) + later + after
              == [AssemblyEnd] + (later + after)
  {
    var members := MembersOf(input, assembly);
    assert members[|members|..] == [];
  }

  lemma AssemblyHead(input: Input, k: nat)
    requires WellFormed(input) && k <= |input.assemblies|
    ensures AssemblyItems(input, input.assemblies[k..]) ==
      if k == |input.assemblies| then []
      else AssemblyFrom(input, input.assemblies[k], false, 0) + AssemblyItems(input, input.assemblies[k + 1..])
  {
    if k < |input.assemblies| {
      var members := MembersOf(input, input.assemblies[k]);
      assert input.assemblies[k..][1..] == input.assemblies[k + 1..] && members[0..] == members;
    }
  }

  lemma NothingLeft(input: Input, kinds: map<Id, ObjectKind>, ledger: Ledger)
    requires WellFormed(input)
    ensures After(input, Done) == [] && Stream(input, kinds, ledger, []) == []
  {
  }

  // ----- Draining the reader -----

  /**
   Pulls batches until the end or a failure. When every row can be read, the result is the
   one-pass stream, whatever the batch size; otherwise it is the longest run of whole
   batches before the failure.
   */
  method Drain(input: Input, batchSize: nat) returns (relations: seq<Relation>, failed: bool)
    requires WellFormed(input) && batchSize >= 1
    ensures Events(relations) == Delivered(OnePass(input), batchSize)
    ensures failed <==> Failed in OnePass(input)
  {
    hide OnePass, Stream, Events, Delivered, Whole, WellFormed, Reader.Valid, Reader.Pending;
    WholeNothing(batchSize);
    relations, failed := [], false;
    var reader := new Reader(input, batchSize);
    NoEvents<Relation>();
    while true
      invariant reader.Valid() && fresh(reader) && reader.batchSize == batchSize
      invariant Whole(|relations|, batchSize) == |relations|
      invariant OnePass(input) == Events(relations) + reader.Pending()
      decreases |reader.Pending()|
    {
      ghost var before, pending := relations, reader.Pending();
      var batch := reader.Next();
      match batch
      case End =>
        WholeStream(relations, OnePass(input), batchSize);
        return relations, false;
      case Failure =>
        BrokenStream(relations, reader.batch, reader.Pending(), OnePass(input), batchSize);
        return relations, true;
      case Items(more) =>
        EventsConcat(relations, more);
        relations := relations + more;
        if |more| < batchSize {
          WholeStream(relations, OnePass(input), batchSize);
          return relations, false;
        }
        MoreBatches(|before|, batchSize);
    }
  }
}
