/**
 The semantic relation stream as a single unbatched pass: which persisted facts become
 edges, in which order, and with which ordinals.
 */
module SemanticRelations {
  import opened Batches
  import opened Wrappers

  type Id = nat

  datatype ObjectKind =
    | Unknown | Beam | ContourPlate | PolyBeam | Brep | LoftedPlate | Connection | Component | Grid | BoltArray
    | BooleanPart | CutPlane | Weld | GridPlane | SingleRebar | RebarGroup | RebarMesh | RebarSet | RebarSetGroup
    | RebarEndDetailModifier | RebarSplitter | RebarSplice | Assembly | SurfaceTreatment | SurfaceObject
    | PourObject | PourUnit

  /** Everything but the inputs to another element's geometry. */
  predicate IsModelElement(kind: ObjectKind) {
    !kind.BooleanPart? && !kind.CutPlane?
  }

  predicate IsReinforcement(kind: ObjectKind) {
    kind.SingleRebar? || kind.RebarGroup? || kind.RebarMesh?
  }

  predicate IsHost(kind: ObjectKind) {
    kind.Beam? || kind.ContourPlate? || kind.PolyBeam? || kind.Brep? || kind.LoftedPlate? || kind.Connection?
        || kind.Component?
  }

  datatype Element = Element(id: Id, parent: Id, kind: ObjectKind)

  /** A stored relation; its hidden flag is bit 3 of the record's marker. */
  datatype RelationRow = RelationRow(hidden: bool, id: Id, relation: nat, source: Id, target: Id)

  datatype JointRow = JointRow(hidden: bool, id: Id, primary: Id, secondary: Id)

  datatype Pour = Pour(poured: Id, pourUnit: Id)

  datatype Splice = Splice(id: Id, first: Id, second: Id)

  datatype SurfaceHost = SurfaceHost(surface: Id, host: Id)

  /**
   What the stream is built from. A table may be absent, and a row whose record lies
   outside the payload is `None`.
   */
  datatype Input = Input(
    objects: seq<Element>, endpoints: set<Id>,
    relations: Option<seq<Option<RelationRow>>>, joints: Option<seq<Option<JointRow>>>,
    assemblies: seq<Id>, mains: map<Id, Id>, members: map<Id, seq<Id>>,
    pours: seq<Pour>, splices: seq<Splice>, surfaces: seq<SurfaceHost>)

  datatype RelationKind = Subelement | InAssembly | ConnectsTo | HostedOn

  datatype Origin =
    | ObjectParent | StoredRelation | AssemblyMembership | ComponentConnection | RebarHost | RebarSpliceEnd
    | PourMembership | SurfaceObjectHost

  datatype Relation = Relation(kind: RelationKind, source: Id, target: Id, ordinal: nat, origin: Origin, relationId: Id)

  type RelationEvent = Event<Relation>

  // ----- Single facts -----

  datatype Item =
    | ParentItem(element: Element)
    | StoredItem(row: Option<RelationRow>)
    | MainItem(assembly: Id, main: Id)
    | MemberItem(assembly: Id, main: Id, member: Id)
    | AssemblyEnd
    | PourItem(pour: Pour)
    | SpliceItem(splice: Splice, second: bool)
    | SurfaceItem(surface: SurfaceHost)
    | JointItem(joint: Option<JointRow>)

  /** What has been emitted so far, as far as later facts depend on it. */
  datatype Ledger = Ledger(subelements: set<(Id, Id)>, hosted: set<(Id, Id)>, connections: set<(Id, Id)>,
                           childOrdinals: map<Id, nat>, memberOrdinal: nat)

  function EmptyLedger(): Ledger {
    Ledger({}, {}, {}, map[], 1)
  }

  /** The kind of each object; the first row of an id wins. */
  function KindsOf(objects: seq<Element>): map<Id, ObjectKind> {
    if objects == [] then map[]
    else
      var last, before := objects[|objects| - 1], KindsOf(objects[..|objects| - 1]);
      if last.id in before then before else before[last.id := last.kind]
  }

  /** Two distinct live objects, both of them model elements. */
  predicate ValidEdge(input: Input, kinds: map<Id, ObjectKind>, source: Id, target: Id) {
    && source != 0 && target != 0 && source != target && source in input.endpoints && target in input.endpoints
    && source in kinds && target in kinds && IsModelElement(kinds[source]) && IsModelElement(kinds[target])
  }

  function OrdinalOf(ledger: Ledger, parent: Id): nat {
    if parent in ledger.childOrdinals then ledger.childOrdinals[parent] else 0
  }

  function AddSubelement(input: Input, kinds: map<Id, ObjectKind>, ledger: Ledger,
                         parent: Id, child: Id, origin: Origin, relationId: Id): (Ledger, seq<RelationEvent>) {
    if !ValidEdge(input, kinds, parent, child) || (parent, child) in ledger.subelements then (ledger, [])
    else
      (ledger.(subelements := ledger.subelements + {(parent, child)},
               childOrdinals := ledger.childOrdinals[parent := OrdinalOf(ledger, parent) + 1]),
       [Emitted(Relation(Subelement, parent, child, OrdinalOf(ledger, parent), origin, relationId))])
  }

  function AddHosted(input: Input, kinds: map<Id, ObjectKind>, ledger: Ledger,
                     source: Id, host: Id, eligible: bool, origin: Origin, relationId: Id)
    : (Ledger, seq<RelationEvent>)
  {
    if !ValidEdge(input, kinds, source, host) || (source, host) in ledger.hosted || !eligible then (ledger, [])
    else
      (ledger.(hosted := ledger.hosted + {(source, host)}),
       [Emitted(Relation(HostedOn, source, host, 0, origin, relationId))])
  }

  function AddConnection(input: Input, kinds: map<Id, ObjectKind>, ledger: Ledger,
                         primary: Id, secondary: Id, relationId: Id, origin: Origin, ordinal: nat)
    : (Ledger, seq<RelationEvent>)
  {
    if !ValidEdge(input, kinds, primary, secondary) || (primary, secondary) in ledger.connections then (ledger, [])
    else
      (ledger.(connections := ledger.connections + {(primary, secondary)}),
       [Emitted(Relation(ConnectsTo, primary, secondary, ordinal, origin, relationId))])
  }

  predicate IsSubelementRelation(relation: nat) {
    relation in {7, 11, 12, 73, 96, 97, 60005}
  }

  /** Everything one persisted fact contributes: at most one event. */
  function Step(input: Input, kinds: map<Id, ObjectKind>, ledger: Ledger, item: Item): (r: (Ledger, seq<RelationEvent>))
    ensures |r.1| <= 1
  {
    match item
    case ParentItem(element) =>
      AddSubelement(input, kinds, ledger, element.parent, element.id, ObjectParent, 0)
    case StoredItem(None) => (ledger, [Failed])
    case StoredItem(Some(row)) =>
      if row.hidden then (ledger, [])
      else if IsSubelementRelation(row.relation) then
        AddSubelement(input, kinds, ledger, row.source, row.target, StoredRelation, row.id)
      else if row.relation == 47 then
        AddHosted(input, kinds, ledger, row.target, row.source,
                  row.target in kinds && row.source in kinds && IsReinforcement(kinds[row.target])
                      && IsHost(kinds[row.source]),
                  RebarHost, row.id)
      else (ledger, [])
    case MainItem(assembly, main) =>
      (ledger.(memberOrdinal := 1),
       if ValidEdge(input, kinds, main, assembly) then
         [Emitted(Relation(InAssembly, main, assembly, 0, AssemblyMembership, 0))] else [])
    case MemberItem(assembly, main, member) =>
      if member == main || member == assembly || !ValidEdge(input, kinds, member, assembly) then (ledger, [])
      else
        (ledger.(memberOrdinal := ledger.memberOrdinal + 1),
         [Emitted(Relation(InAssembly, member, assembly, ledger.memberOrdinal, AssemblyMembership, 0))])
    case AssemblyEnd => (ledger.(memberOrdinal := 1), [])
    case PourItem(pour) =>
      (ledger, if ValidEdge(input, kinds, pour.poured, pour.pourUnit) then
         [Emitted(Relation(InAssembly, pour.poured, pour.pourUnit, 0, PourMembership, 0))] else [])
    case SpliceItem(splice, second) =>
      AddConnection(input, kinds, ledger, splice.id, if second then splice.second else splice.first, 0,
                    RebarSpliceEnd, if second then 1 else 0)
    case SurfaceItem(surface) =>
      AddHosted(input, kinds, ledger, surface.surface, surface.host,
                surface.surface in kinds && surface.host in kinds && kinds[surface.surface].SurfaceObject?
                    && IsHost(kinds[surface.host]),
                SurfaceObjectHost, 0)
    case JointItem(None) => (ledger, [Failed])
    case JointItem(Some(row)) =>
      if row.hidden then (ledger, [])
      else AddConnection(input, kinds, ledger, row.primary, row.secondary, row.id, ComponentConnection, 0)
  }

  /** All events of a list of facts, in one pass. */
  function Stream(input: Input, kinds: map<Id, ObjectKind>, ledger: Ledger, items: seq<Item>): seq<RelationEvent>
    decreases |items|
  {
    if items == [] then []
    else
      var (next, events) := Step(input, kinds, ledger, items[0]);
      events + Stream(input, kinds, next, items[1..])
  }

  // ----- The order of the facts -----

  function ParentItems(objects: seq<Element>): seq<Item> {
    if objects == [] then [] else [ParentItem(objects[0])] + ParentItems(objects[1..])
  }

  function StoredItems(rows: seq<Option<RelationRow>>): seq<Item> {
    if rows == [] then [] else [StoredItem(rows[0])] + StoredItems(rows[1..])
  }

  function JointItems(rows: seq<Option<JointRow>>): seq<Item> {
    if rows == [] then [] else [JointItem(rows[0])] + JointItems(rows[1..])
  }

  function MemberItems(assembly: Id, main: Id, members: seq<Id>): seq<Item> {
    if members == [] then [] else [MemberItem(assembly, main, members[0])] + MemberItems(assembly, main, members[1..])
  }

  function MembersOf(input: Input, assembly: Id): seq<Id> {
    if assembly in input.members then input.members[assembly] else []
  }

  function AssemblyItems(input: Input, assemblies: seq<Id>): seq<Item>
    requires forall a :: a in assemblies ==> a in input.mains
  {
    if assemblies == [] then []
    else
      var assembly := assemblies[0];
      assert assembly in assemblies;
      [MainItem(assembly, input.mains[assembly])]
      + MemberItems(assembly, input.mains[assembly], MembersOf(input, assembly)) + [AssemblyEnd]
      + AssemblyItems(input, assemblies[1..])
  }

  function PourItems(pours: seq<Pour>): seq<Item> {
    if pours == [] then [] else [PourItem(pours[0])] + PourItems(pours[1..])
  }

  function SpliceItems(splices: seq<Splice>): seq<Item> {
    if splices == [] then []
    else [SpliceItem(splices[0], false), SpliceItem(splices[0], true)] + SpliceItems(splices[1..])
  }

  function SurfaceItems(surfaces: seq<SurfaceHost>): seq<Item> {
    if surfaces == [] then [] else [SurfaceItem(surfaces[0])] + SurfaceItems(surfaces[1..])
  }

  function RowsOf<T>(table: Option<seq<T>>): seq<T> {
    if table.Some? then table.value else []
  }

  ghost predicate WellFormed(input: Input) {
    forall a :: a in input.assemblies ==> a in input.mains
  }

  datatype Phase =
    | Parents | StoredRelations | Assemblies | Pours | RebarSplices | SurfaceObjects | ComponentConnections | Done

  function PhasesLeft(phase: Phase): nat {
    match phase
    case Parents => 7
    case StoredRelations => 6
    case Assemblies => 5
    case Pours => 4
    case RebarSplices => 3
    case SurfaceObjects => 2
    case ComponentConnections => 1
    case Done => 0
  }

  /** The facts of every phase after the given one. */
  function After(input: Input, phase: Phase): seq<Item>
    requires WellFormed(input)
    decreases PhasesLeft(phase)
  {
    match phase
    case Parents => StoredItems(RowsOf(input.relations)) + After(input, StoredRelations)
    case StoredRelations => AssemblyItems(input, input.assemblies) + After(input, Assemblies)
    case Assemblies => PourItems(input.pours) + After(input, Pours)
    case Pours => SpliceItems(input.splices) + After(input, RebarSplices)
    case RebarSplices => SurfaceItems(input.surfaces) + After(input, SurfaceObjects)
    case SurfaceObjects => JointItems(RowsOf(input.joints))
    case ComponentConnections => []
    case Done => []
  }

  /** Every fact, in the order of the phases. */
  function AllItems(input: Input): seq<Item>
    requires WellFormed(input)
  {
    ParentItems(input.objects) + After(input, Parents)
  }

  /** The whole stream in one unbatched pass. */
  function OnePass(input: Input): seq<RelationEvent>
    requires WellFormed(input)
  {
    Stream(input, KindsOf(input.objects), EmptyLedger(), AllItems(input))
  }
}
