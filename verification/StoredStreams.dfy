/**
 The streams of a stored model: when a relation stream fails, why a payload that was
 accepted never makes one fail, and that such a stream does not depend on the batch size.
 */
module StoredStreams {
  import opened Batches
  import opened Container
  import opened SemanticRelations
  import opened RelationLists
  import opened RelationReader
  import RelationRuns
  import PropertyReader
  import PropertyWinners
  import opened Wrappers

  // ----- When a relation stream fails -----

  /** Some fact is a row whose record lies outside the payload. */
  predicate Unreadable(items: seq<Item>) {
    StoredItem(None) in items || JointItem(None) in items
  }

  lemma {:induction false} FailsAtUnreadable(input: Input, kinds: map<Id, ObjectKind>, ledger: Ledger, items: seq<Item>)
    ensures Failed in Stream(input, kinds, ledger, items) <==> Unreadable(items)
    decreases |items|
  {
    hide AddSubelement, AddHosted, AddConnection;
    if items != [] {
      var (next, events) := Step(input, kinds, ledger, items[0]);
      StepFails(input, kinds, ledger, items[0]);
      FailsAtUnreadable(input, kinds, next, items[1..]);
      assert items == [items[0]] + items[1..];
    }
  }

  lemma StepFails(input: Input, kinds: map<Id, ObjectKind>, ledger: Ledger, item: Item)
    ensures Failed in Step(input, kinds, ledger, item).1 <==> Unreadable([item])
  {
  }

  lemma {:induction false} StoredFail(rows: seq<Option<RelationRow>>)
    ensures Unreadable(StoredItems(rows)) <==> !Readable(rows)
  {
    if rows != [] {
      StoredFail(rows[1..]);
      ReadableHead(rows);
    }
  }

  lemma {:induction false} JointsFail(rows: seq<Option<JointRow>>)
    ensures Unreadable(JointItems(rows)) <==> !Readable(rows)
  {
    if rows != [] {
      JointsFail(rows[1..]);
      ReadableHead(rows);
    }
  }

  lemma ReadableHead<T>(rows: seq<Option<T>>)
    requires rows != []
    ensures Readable(rows) <==> rows[0].Some? && Readable(rows[1..])
  {
    assert rows == [rows[0]] + rows[1..];
  }

  /** Facts that are not rows of the relation or the joint table. */
  ghost predicate NoRows(items: seq<Item>) {
    forall i :: 0 <= i < |items| ==> !items[i].StoredItem? && !items[i].JointItem?
  }

  lemma {:induction false} ParentsAreNoRows(objects: seq<Element>)
    ensures NoRows(ParentItems(objects))
  {
    if objects != [] { ParentsAreNoRows(objects[1..]); }
  }

  lemma {:induction false} SplicesAreNoRows(splices: seq<Splice>)
    ensures NoRows(SpliceItems(splices))
  {
    if splices != [] { SplicesAreNoRows(splices[1..]); }
  }

  lemma {:induction false} SurfacesAreNoRows(surfaces: seq<SurfaceHost>)
    ensures NoRows(SurfaceItems(surfaces))
  {
    if surfaces != [] { SurfacesAreNoRows(surfaces[1..]); }
  }

  lemma {:induction false} AssembliesAreNoRows(input: Input, assemblies: seq<Id>)
    requires forall a :: a in assemblies ==> a in input.mains
    ensures NoRows(AssemblyItems(input, assemblies))
  {
    if assemblies != [] {
      RelationRuns.MembersAreInOrder(assemblies[0], input.mains[assemblies[0]], MembersOf(input, assemblies[0]));
      AssembliesAreNoRows(input, assemblies[1..]);
    }
  }

  lemma NoRowsCannotFail(items: seq<Item>)
    requires NoRows(items)
    ensures !Unreadable(items)
  {
  }

  lemma FailsInParts(a: seq<Item>, b: seq<Item>)
    ensures Unreadable(a + b) <==> Unreadable(a) || Unreadable(b)
  {
  }

  /** A stream fails if and only if a row of the relation or the joint table cannot be read. */
  lemma FailsIffUnreadable(input: Input)
    requires WellFormed(input)
    ensures Failed in OnePass(input) <==> !Readable(RowsOf(input.relations)) || !Readable(RowsOf(input.joints))
  {
    hide Stream, AllItems, AssemblyItems, ParentItems, StoredItems, PourItems, SpliceItems, SurfaceItems;
    hide JointItems;
    hide KindsOf, Unreadable, NoRows, Readable, RowsOf;
    var stored, joints := StoredItems(RowsOf(input.relations)), JointItems(RowsOf(input.joints));
    var parents, assemblies := ParentItems(input.objects), AssemblyItems(input, input.assemblies);
    var pours, splices, surfaces := PourItems(input.pours), SpliceItems(input.splices), SurfaceItems(input.surfaces);
    FailsAtUnreadable(input, KindsOf(input.objects), EmptyLedger(), AllItems(input));
    RelationRuns.Unfold(input);
    FailsInParts(parents, stored + (assemblies + (pours + (splices + (surfaces + joints)))));
    FailsInParts(stored, assemblies + (pours + (splices + (surfaces + joints))));
    FailsInParts(assemblies, pours + (splices + (surfaces + joints)));
    FailsInParts(pours, splices + (surfaces + joints));
    FailsInParts(splices, surfaces + joints);
    FailsInParts(surfaces, joints);
    ParentsAreNoRows(input.objects);
    AssembliesAreNoRows(input, input.assemblies);
    PoursAreNoRows(input.pours);
    SplicesAreNoRows(input.splices);
    SurfacesAreNoRows(input.surfaces);
    NoRowsCannotFail(parents);
    NoRowsCannotFail(assemblies);
    NoRowsCannotFail(pours);
    NoRowsCannotFail(splices);
    NoRowsCannotFail(surfaces);
    StoredFail(RowsOf(input.relations));
    JointsFail(RowsOf(input.joints));
  }

  /** A model whose only stored relation lies outside the payload. */
  function BrokenInput(): Input {
    Input([Element(1, 0, Beam), Element(2, 1, Beam)], {1, 2}, Some([None]), None, [], map[], map[], [], [], [])
  }

  /** By itself the reader loses the child of a broken model in a batch of two, but not in a batch of one. */
  lemma BrokenInputIsUnsteady()
    ensures WellFormed(BrokenInput()) && FirstFailure(OnePass(BrokenInput())) == 1 && !Steady(OnePass(BrokenInput()))
  {
    var input := BrokenInput();
    var kinds := KindsOf(input.objects);
    var first, second := input.objects[0], input.objects[1];
    RelationRuns.Unfold(input);
    assert KindsOf([first]) == map[1 := Beam] by { assert [first][..0] == []; }
    assert kinds == map[1 := Beam, 2 := Beam] by { assert input.objects[..1] == [first]; }
    assert ParentItems([first, second]) == [ParentItem(first), ParentItem(second)];
    assert StoredItems([None]) == [StoredItem(None)];
    assert AllItems(input) == [ParentItem(first), ParentItem(second), StoredItem(None)];
    Consume(input, kinds, EmptyLedger(), ParentItem(first), [ParentItem(second), StoredItem(None)], []);
    var (next, events) := Step(input, kinds, EmptyLedger(), ParentItem(second));
    Consume(input, kinds, EmptyLedger(), ParentItem(second), [StoredItem(None)], []);
    Consume(input, kinds, next, StoredItem(None), [], []);
    assert OnePass(input) == events + [Failed] && |events| == 1;
    SteadyIffNothingLost(OnePass(input));
  }

  lemma PoursAreNoRows(pours: seq<Pour>)
    ensures NoRows(PourItems(pours))
  {
    RelationRuns.PoursAreInOrder(pours);
  }

  // ----- Rows of an accepted payload -----

  /** What a reader makes of one row; a record outside the payload gives nothing. */
  function ReadRow<T>(table: Table, payload: seq<byte>, decode: seq<byte> -> T, index: nat): Option<T> {
    var record := Record(table, payload, index);
    if record == [] then None else Some(decode(record))
  }

  function ReadRows<T>(table: Table, payload: seq<byte>, decode: seq<byte> -> T): (rows: seq<Option<T>>)
    ensures |rows| == table.rowCount
  {
    seq(table.rowCount, (index: nat) requires index < table.rowCount => ReadRow(table, payload, decode, index))
  }

  lemma AcceptedTableFits(bytes: seq<byte>, k: nat)
    requires InspectTables(bytes).Some? && k < |InspectTables(bytes).value|
    ensures SectionEnd(InspectTables(bytes).value[k]) <= |bytes|
  {
    hide Scan, ParseAll, RecordSize;
    AcceptedPayloadIsTiled(bytes);
    var tables := InspectTables(bytes).value;
    if k < |tables| - 1 { SectionsAscend(tables, Scan(bytes, 0)[0], |bytes|, k, |tables| - 1); }
  }

  /** In an accepted payload every row of every table has a full-size record. */
  lemma AcceptedRecordsAreWhole(bytes: seq<byte>, k: nat, index: nat)
    requires InspectTables(bytes).Some? && k < |InspectTables(bytes).value|
    requires index < InspectTables(bytes).value[k].rowCount
    ensures var table := InspectTables(bytes).value[k]; |Record(table, bytes, index)| == RecordSize(table.tupleSize)
  {
    hide InspectTables, Record;
    AcceptedTableFits(bytes, k);
    RecordsAreWhole(InspectTables(bytes).value[k], bytes, index);
  }

  lemma AcceptedRowsAreReadable<T>(bytes: seq<byte>, k: nat, decode: seq<byte> -> T)
    requires InspectTables(bytes).Some? && k < |InspectTables(bytes).value|
    ensures Readable(ReadRows(InspectTables(bytes).value[k], bytes, decode))
  {
    hide InspectTables, Record;
    var table := InspectTables(bytes).value[k];
    forall index: nat | index < table.rowCount ensures ReadRow(table, bytes, decode, index).Some? {
      AcceptedRecordsAreWhole(bytes, k, index);
    }
  }

  // ----- Streams of an accepted payload -----

  /** The table at a place, if the payload has one there. */
  function RowsAt<T>(bytes: seq<byte>, tables: seq<Table>, at: Option<nat>,
                     decode: seq<byte> -> T): Option<seq<Option<T>>> {
    if at.Some? && at.value < |tables| then Some(ReadRows(tables[at.value], bytes, decode)) else None
  }

  lemma AcceptedRowsAtAreReadable<T>(bytes: seq<byte>, at: Option<nat>, decode: seq<byte> -> T)
    requires InspectTables(bytes).Some?
    ensures Readable(RowsOf(RowsAt(bytes, InspectTables(bytes).value, at, decode)))
  {
    hide InspectTables, ReadRows;
    if at.Some? && at.value < |InspectTables(bytes).value| { AcceptedRowsAreReadable(bytes, at.value, decode); }
  }

  /** The row is what its bytes are decoded to: a marker byte, the tuple and two words, counted from the first row. */
  ghost predicate IsRecordRow<T>(bytes: seq<byte>, table: Table, decode: seq<byte> -> T, r: nat, row: Option<T>) {
    var from := table.recordOffset + r * (table.tupleSize + 9);
    from + table.tupleSize + 9 <= |bytes| && row == Some(decode(bytes[from..from + table.tupleSize + 9]))
  }

  ghost predicate AreRecordRows<T>(bytes: seq<byte>, table: Table, decode: seq<byte> -> T, rows: seq<Option<T>>) {
    |rows| == table.rowCount && forall r: nat :: r < |rows| ==> IsRecordRow(bytes, table, decode, r, rows[r])
  }

  lemma RowsAreRecords<T>(bytes: seq<byte>, k: nat, decode: seq<byte> -> T)
    requires InspectTables(bytes).Some? && k < |InspectTables(bytes).value|
    ensures var table := InspectTables(bytes).value[k];
            AreRecordRows(bytes, table, decode, ReadRows(table, bytes, decode))
  {
    hide InspectTables, Record;
    var table := InspectTables(bytes).value[k];
    var rows := ReadRows(table, bytes, decode);
    AcceptedTableFits(bytes, k);
    forall r: nat | r < |rows| ensures IsRecordRow(bytes, table, decode, r, rows[r]) {
      RecordsAreWhole(table, bytes, r);
    }
  }

  /** A table of an accepted payload is read if and only if there is one at the place, and row by row from its bytes. */
  lemma TablesAreRead<T>(bytes: seq<byte>, at: Option<nat>, decode: seq<byte> -> T)
    requires InspectTables(bytes).Some?
    ensures var tables := InspectTables(bytes).value;
            var rows := RowsAt(bytes, tables, at, decode);
            && (rows.Some? <==> at.Some? && at.value < |tables|)
            && (rows.Some? ==> AreRecordRows(bytes, tables[at.value], decode, rows.value))
  {
    hide InspectTables, ReadRows, AreRecordRows;
    if at.Some? && at.value < |InspectTables(bytes).value| { RowsAreRecords(bytes, at.value, decode); }
  }

  /** Where the schema places the tables of the relation stream, and how it reads their records. */
  datatype Schema = Schema(
    objects: nat, assemblies: Option<nat>, pours: Option<nat>, relations: Option<nat>, joints: Option<nat>,
    toObject: seq<byte> -> ObjectRow, toAssembly: seq<byte> -> AssemblyRow, toPour: seq<byte> -> PourRow,
    toRelation: seq<byte> -> RelationRow, toJoint: seq<byte> -> JointRow)

  /** The input is what the tables of the payload state. */
  ghost predicate StoredIn(input: Input, bytes: seq<byte>, tables: seq<Table>, schema: Schema) {
    && StatedBy(input, RowsOf(RowsAt(bytes, tables, Some(schema.objects), schema.toObject)),
                RowsOf(RowsAt(bytes, tables, schema.assemblies, schema.toAssembly)),
                RowsOf(RowsAt(bytes, tables, schema.pours, schema.toPour)))
    && input.relations == RowsAt(bytes, tables, schema.relations, schema.toRelation)
    && input.joints == RowsAt(bytes, tables, schema.joints, schema.toJoint)
  }

  /** A relation stream over an accepted payload never fails, so no batch size changes what is delivered. */
  lemma StoredRelationsAreSteady(input: Input, bytes: seq<byte>, schema: Schema)
    requires WellFormed(input) && InspectTables(bytes).Some?
    requires StoredIn(input, bytes, InspectTables(bytes).value, schema)
    ensures Failed !in OnePass(input) && Steady(OnePass(input))
    ensures forall batchSize: nat :: batchSize >= 1 ==> Delivered(OnePass(input), batchSize) == OnePass(input)
  {
    hide InspectTables, OnePass, RowsAt, StatedBy, Readable, Delivered, Steady;
    AcceptedRowsAtAreReadable(bytes, schema.relations, schema.toRelation);
    AcceptedRowsAtAreReadable(bytes, schema.joints, schema.toJoint);
    FailsIffUnreadable(input);
    UnfailingIsSteady(OnePass(input));
  }

  /**
   Inspects a payload, builds the lists and drains the reader. Whatever the batch size, it
   gives the whole one-pass stream of what the tables state, and only a refused payload or a
   missing object table gives nothing.
   */
  method StreamRelations(bytes: seq<byte>, schema: Schema, splices: seq<Splice>, surfaces: seq<SurfaceHost>,
                         batchSize: nat)
    returns (streamed: Option<(Input, seq<Relation>)>)
    requires batchSize >= 1
    ensures streamed.Some? <==> InspectTables(bytes).Some? && schema.objects < |InspectTables(bytes).value|
    ensures streamed.Some? ==>
              var (input, relations) := streamed.value;
              && WellBuilt(input) && StoredIn(input, bytes, InspectTables(bytes).value, schema)
              && input.splices == splices && input.surfaces == surfaces
              && Events(relations) == OnePass(input)
  {
    hide InspectTables, OnePass, RowsAt, StatedBy, Readable, Delivered, Steady, Events, WellBuilt;
    var layout := Inspect(bytes);
    if layout.None? || schema.objects >= |layout.value.tables| { return None; }
    var tables := layout.value.tables;
    AcceptedRowsAtAreReadable(bytes, Some(schema.objects), schema.toObject);
    AcceptedRowsAtAreReadable(bytes, schema.assemblies, schema.toAssembly);
    AcceptedRowsAtAreReadable(bytes, schema.pours, schema.toPour);
    var made := MakeInput(RowsOf(RowsAt(bytes, tables, Some(schema.objects), schema.toObject)),
                          RowsOf(RowsAt(bytes, tables, schema.assemblies, schema.toAssembly)),
                          RowsOf(RowsAt(bytes, tables, schema.pours, schema.toPour)),
                          RowsAt(bytes, tables, schema.relations, schema.toRelation),
                          RowsAt(bytes, tables, schema.joints, schema.toJoint), splices, surfaces);
    BuiltIsWellFormed(made.value);
    StoredRelationsAreSteady(made.value, bytes, schema);
    var relations, failed := Drain(made.value, batchSize);
    return Some((made.value, relations));
  }

  lemma BuiltIsWellFormed(input: Input)
    requires WellBuilt(input)
    ensures WellFormed(input)
  {
  }

  /** A table of attribute links, by its place. */
  datatype LinkTable = LinkTable(family: PropertyWinners.Family, at: Option<nat>,
      decode: seq<byte> -> PropertyWinners.LinkRow)

  /** The link tables that the payload has and that hold rows, in their order. */
  function Sources(bytes: seq<byte>, tables: seq<Table>, links: seq<LinkTable>): seq<PropertyWinners.Source> {
    if links == [] then []
    else
      var link, later := links[0], Sources(bytes, tables, links[1..]);
      if link.at.None? || link.at.value >= |tables| || tables[link.at.value].rowCount == 0 then later
      else [PropertyWinners.Source(link.family, ReadRows(tables[link.at.value], bytes, link.decode))] + later
  }

  /** The payload has the table and it holds rows. */
  predicate IsHeld(tables: seq<Table>, link: LinkTable) {
    link.at.Some? && link.at.value < |tables| && tables[link.at.value].rowCount > 0
  }

  /** How many of the first `j` link tables are held. */
  function CountHeld(tables: seq<Table>, links: seq<LinkTable>, j: nat): nat
    requires j <= |links|
  {
    if j == 0 then 0 else CountHeld(tables, links, j - 1) + if IsHeld(tables, links[j - 1]) then 1 else 0
  }

  lemma {:induction false} CountHeldFront(tables: seq<Table>, links: seq<LinkTable>, j: nat)
    requires 1 <= j <= |links|
    ensures CountHeld(tables, links, j)
              == (if IsHeld(tables, links[0]) then 1 else 0) + CountHeld(tables, links[1..], j - 1)
  {
    if j > 1 { CountHeldFront(tables, links, j - 1); }
  }

  /**
   The sources are the held link tables and no others, in their order: the source of a held
   table is numbered by the held ones before it, and has the family and all the rows of it.
   */
  lemma {:induction false} SourcesAreLinkTables(bytes: seq<byte>, links: seq<LinkTable>, j: nat)
    requires InspectTables(bytes).Some? && j < |links|
    ensures var tables := InspectTables(bytes).value;
      var sources, n := Sources(bytes, tables, links), CountHeld(tables, links, j);
      && |sources| == CountHeld(tables, links, |links|)
      && (IsHeld(tables, links[j]) ==>
            && n < |sources| && sources[n].family == links[j].family
            && AreRecordRows(bytes, tables[links[j].at.value], links[j].decode, sources[n].rows))
    decreases |links|
  {
    hide InspectTables, ReadRows, AreRecordRows;
    var tables := InspectTables(bytes).value;
    CountHeldFront(tables, links, |links|);
    if |links| > 1 { SourcesAreLinkTables(bytes, links[1..], if j == 0 then 0 else j - 1); }
    if j > 0 {
      CountHeldFront(tables, links, j);
    } else if IsHeld(tables, links[0]) {
      RowsAreRecords(bytes, links[0].at.value, links[0].decode);
    }
  }

  lemma {:induction false} AcceptedSourcesAreReadable(bytes: seq<byte>, links: seq<LinkTable>)
    requires InspectTables(bytes).Some?
    ensures var sources := Sources(bytes, InspectTables(bytes).value, links);
            forall source :: source in sources ==> Readable(source.rows)
  {
    hide InspectTables, ReadRows, Readable;
    if links != [] {
      var link, tables := links[0], InspectTables(bytes).value;
      AcceptedSourcesAreReadable(bytes, links[1..]);
      if link.at.Some? && link.at.value < |tables| { AcceptedRowsAreReadable(bytes, link.at.value, link.decode); }
    }
  }

  /** Over an accepted payload every attribute link can be read, so no batch size changes what is delivered. */
  lemma StoredPropertiesAreSteady(bytes: seq<byte>, links: seq<LinkTable>, defs: PropertyWinners.Definitions)
    requires InspectTables(bytes).Some?
    ensures var sources := Sources(bytes, InspectTables(bytes).value, links);
            var stream := PropertyWinners.StreamFrom(defs, sources, PropertyWinners.Place(0, 0));
            && PropertyWinners.AllReadable(sources) && Failed !in stream && Steady(stream)
            && forall batchSize: nat :: batchSize >= 1 ==> Delivered(stream, batchSize) == stream
  {
    hide InspectTables, Sources, Delivered, Steady, PropertyWinners.StreamFrom;
    var sources := Sources(bytes, InspectTables(bytes).value, links);
    AcceptedSourcesAreReadable(bytes, links);
    forall p | PropertyWinners.InRange(sources, p) ensures sources[p.source].rows[p.row].Some? {
      assert sources[p.source] in sources && Readable(sources[p.source].rows);
    }
    PropertyReader.FailsIffUnreadable(defs, sources);
    UnfailingIsSteady(PropertyWinners.StreamFrom(defs, sources, PropertyWinners.Place(0, 0)));
  }

  /**
   Inspects a payload, finds the winners and drains the property reader: the whole one-pass
   stream of its link tables, whatever the batch size.
   */
  method StreamProperties(bytes: seq<byte>, links: seq<LinkTable>, defs: PropertyWinners.Definitions, batchSize: nat)
    returns (properties: Option<seq<PropertyWinners.Property>>)
    requires batchSize >= 1
    ensures properties.Some? <==> InspectTables(bytes).Some?
    ensures properties.Some? ==>
              var sources := Sources(bytes, InspectTables(bytes).value, links);
              Events(properties.value) == PropertyWinners.StreamFrom(defs, sources, PropertyWinners.Place(0, 0))
  {
    hide InspectTables, Sources, Events, Delivered, Steady, PropertyWinners.StreamFrom;
    hide PropertyWinners.AllReadable;
    var layout := Inspect(bytes);
    if layout.None? { return None; }
    StoredPropertiesAreSteady(bytes, links, defs);
    var failed;
    properties, failed := PropertyReader.ReadProperties(defs, Sources(bytes, layout.value.tables, links), batchSize);
  }
}
