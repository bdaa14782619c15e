/**
 The lists the semantic relation stream runs over, built row by row from the tables, and
 what they guarantee about every stream: live endpoints, no repetition, gapless ordinals.
 */
module RelationLists {
  import opened SemanticRelations
  import opened RelationLaws
  import opened Wrappers

  datatype ObjectRow = ObjectRow(hidden: bool, id: Id, parent: Id, kind: ObjectKind, assembly: Id)

  datatype AssemblyRow = AssemblyRow(hidden: bool, id: Id, main: Id)

  datatype PourRow = PourRow(hidden: bool, pour: Pour)

  /** Every record lies inside the payload. */
  predicate Readable<T>(rows: seq<Option<T>>) {
    forall k :: 0 <= k < |rows| ==> rows[k].Some?
  }

  ghost predicate Distinct<T>(list: seq<T>) {
    forall i, j :: 0 <= i < j < |list| ==> list[i] != list[j]
  }

  // ----- Objects and the members of assemblies -----

  /** The rows that become objects: shown, with an id, and the first of their id. */
  function KeptObjects(rows: seq<Option<ObjectRow>>): seq<ObjectRow> {
    if rows == [] then []
    else
      var before := KeptObjects(rows[..|rows| - 1]);
      match rows[|rows| - 1]
      case None => before
      case Some(row) => if row.hidden || row.id == 0 || row.id in ObjectIds(before) then before else before + [row]
  }

  function ObjectIds(rows: seq<ObjectRow>): seq<Id> {
    if rows == [] then [] else ObjectIds(rows[..|rows| - 1]) + [rows[|rows| - 1].id]
  }

  function Elements(rows: seq<ObjectRow>): seq<Element> {
    if rows == [] then []
    else
      var row := rows[|rows| - 1];
      Elements(rows[..|rows| - 1]) + [Element(row.id, row.parent, row.kind)]
  }

  predicate JoinsAssembly(row: ObjectRow, assembly: Id) {
    row.assembly == assembly && assembly != 0 && assembly != row.id
  }

  /** The objects that name an assembly, in the order of their rows. */
  function MemberIds(rows: seq<ObjectRow>, assembly: Id): seq<Id> {
    if rows == [] then []
    else
      var row := rows[|rows| - 1];
      MemberIds(rows[..|rows| - 1], assembly) + if JoinsAssembly(row, assembly) then [row.id] else []
  }

  /** Every shown id is kept exactly once, and nothing else is. */
  lemma {:induction false} KeptIdsAreDistinct(rows: seq<Option<ObjectRow>>)
    ensures Distinct(ObjectIds(KeptObjects(rows)))
    ensures forall id :: id in ObjectIds(KeptObjects(rows)) <==>
              id != 0 && exists k :: 0 <= k < |rows| && ShowsObject(rows[k], id)
  {
    if rows != [] {
      var n := |rows| - 1;
      KeptIdsAreDistinct(rows[..n]);
      var before := KeptObjects(rows[..n]);
      if rows[n].Some? {
        assert (before + [rows[n].value])[..|before|] == before;
      }
      forall id ensures id in ObjectIds(KeptObjects(rows)) <==>
        id != 0 && exists k :: 0 <= k < |rows| && ShowsObject(rows[k], id)
      {
        assert forall k :: 0 <= k < n ==> rows[..n][k] == rows[k];
        if id in ObjectIds(before) {
          var k :| 0 <= k < n && ShowsObject(rows[..n][k], id);
          assert ShowsObject(rows[k], id);
        }
        if k :| 0 <= k < |rows| && ShowsObject(rows[k], id) && id != 0 && k < n {
          assert ShowsObject(rows[..n][k], id);
        }
      }
    }
  }

  predicate ShowsObject(row: Option<ObjectRow>, id: Id) {
    row.Some? && !row.value.hidden && row.value.id == id
  }

  /** A kept row is the first shown row of its id. */
  lemma {:induction false} KeptIsFirst(rows: seq<Option<ObjectRow>>, row: ObjectRow)
    requires row in KeptObjects(rows)
    ensures exists k :: 0 <= k < |rows| && rows[k] == Some(row) && !row.hidden
              && forall j :: 0 <= j < k ==> !ShowsObject(rows[j], row.id)
  {
    var n := |rows| - 1;
    assert forall k :: 0 <= k < n ==> rows[..n][k] == rows[k];
    if row in KeptObjects(rows[..n]) {
      KeptIsFirst(rows[..n], row);
      var k :| 0 <= k < n && rows[..n][k] == Some(row) && !row.hidden
                  && forall j :: 0 <= j < k ==> !ShowsObject(rows[..n][j], row.id);
      assert rows[k] == Some(row);
      forall j | 0 <= j < k ensures !ShowsObject(rows[j], row.id) {
        assert !ShowsObject(rows[..n][j], row.id);
      }
    } else {
      KeptIdsAreDistinct(rows[..n]);
      assert rows[n] == Some(row);
      forall j | 0 <= j < n ensures !ShowsObject(rows[j], row.id) {
        assert rows[..n][j] == rows[j];
      }
    }
  }

  /** The members of an assembly are distinct objects other than the assembly. */
  lemma {:induction false} MembersAreDistinct(rows: seq<ObjectRow>, assembly: Id)
    requires Distinct(ObjectIds(rows))
    ensures Distinct(MemberIds(rows, assembly))
    ensures forall id :: id in MemberIds(rows, assembly) ==> id in ObjectIds(rows) && id != assembly
  {
    if rows != [] {
      var before, row := rows[..|rows| - 1], rows[|rows| - 1];
      var ids := ObjectIds(before);
      assert ObjectIds(rows)[..|ids|] == ids;
      assert Distinct(ids) by {
        assert forall i :: 0 <= i < |ids| ==> ObjectIds(rows)[i] == ids[i];
      }
      assert row.id !in ids by {
        assert ObjectIds(rows)[|ids|] == row.id;
        assert forall i :: 0 <= i < |ids| ==> ObjectIds(rows)[i] == ids[i];
      }
      MembersAreDistinct(before, assembly);
    }
  }

  function ListOf(members: map<Id, seq<Id>>, assembly: Id): seq<Id> {
    if assembly in members then members[assembly] else []
  }

  /** Every assembly is mapped to the objects that name it, in row order. */
  ghost predicate MembersMatch(rows: seq<ObjectRow>, members: map<Id, seq<Id>>) {
    forall assembly :: ListOf(members, assembly) == MemberIds(rows, assembly)
  }

  lemma NoMembers()
    ensures MembersMatch([], map[])
  {
  }

  lemma MoreMembers(rows: seq<ObjectRow>, row: ObjectRow, members: map<Id, seq<Id>>)
    requires MembersMatch(rows, members)
    ensures MembersMatch(rows + [row],
              if row.assembly != 0 && row.assembly != row.id then
                  members[row.assembly := ListOf(members, row.assembly) + [row.id]] else members)
  {
    assert (rows + [row])[..|rows|] == rows;
    var joined := if row.assembly != 0 && row.assembly != row.id then
        members[row.assembly := ListOf(members, row.assembly) + [row.id]] else members;
    forall assembly ensures ListOf(joined, assembly) == MemberIds(rows + [row], assembly) {
      assert ListOf(members, assembly) == MemberIds(rows, assembly);
    }
  }

  /** Reads the object table: one object per shown id, and the members of every assembly. */
  method ListObjects(rows: seq<Option<ObjectRow>>)
    returns (ok: bool, objects: seq<Element>, endpoints: set<Id>, members: map<Id, seq<Id>>)
    ensures ok <==> Readable(rows)
    ensures ok ==> objects == Elements(KeptObjects(rows))
    ensures ok ==> forall id :: id in endpoints <==> id in ObjectIds(KeptObjects(rows))
    ensures ok ==> MembersMatch(KeptObjects(rows), members)
  {
    hide MembersMatch;
    NoMembers();
    ok, objects, endpoints, members := true, [], {}, map[];
    for row := 0 to |rows|
      invariant ok && Readable(rows[..row])
      invariant objects == Elements(KeptObjects(rows[..row]))
      invariant forall id :: id in endpoints <==> id in ObjectIds(KeptObjects(rows[..row]))
      invariant MembersMatch(KeptObjects(rows[..row]), members)
    {
      if rows[row].None? { return false, objects, endpoints, members; }
      ghost var before := KeptObjects(rows[..row]);
      assert rows[..row + 1][..row] == rows[..row];
      var record := rows[row].value;
      if record.hidden || record.id == 0 || record.id in endpoints { continue; }
      ghost var after := before + [record];
      assert after[..|before|] == before;
      MoreMembers(before, record, members);
      endpoints := endpoints + {record.id};
      objects := objects + [Element(record.id, record.parent, record.kind)];
      if record.assembly != 0 && record.assembly != record.id {
        members := members[record.assembly := ListOf(members, record.assembly) + [record.id]];
      }
    }
    assert rows[..|rows|] == rows;
  }

  // ----- Assemblies -----

  function KeptAssemblies(rows: seq<Option<AssemblyRow>>, endpoints: set<Id>): seq<AssemblyRow> {
    if rows == [] then []
    else
      var before := KeptAssemblies(rows[..|rows| - 1], endpoints);
      match rows[|rows| - 1]
      case None => before
      case Some(row) =>
        if row.hidden || row.id == 0 || row.id !in endpoints || row.id in AssemblyIds(before) then before
        else before + [row]
  }

  function AssemblyIds(rows: seq<AssemblyRow>): seq<Id> {
    if rows == [] then [] else AssemblyIds(rows[..|rows| - 1]) + [rows[|rows| - 1].id]
  }

  lemma {:induction false} KeptAssembliesAreDistinct(rows: seq<Option<AssemblyRow>>, endpoints: set<Id>)
    ensures Distinct(AssemblyIds(KeptAssemblies(rows, endpoints)))
    ensures forall id :: id in AssemblyIds(KeptAssemblies(rows, endpoints)) ==> id in endpoints && id != 0
  {
    if rows != [] {
      var n := |rows| - 1;
      KeptAssembliesAreDistinct(rows[..n], endpoints);
      var before := KeptAssemblies(rows[..n], endpoints);
      if rows[n].Some? { assert (before + [rows[n].value])[..|before|] == before; }
    }
  }

  /** The main member of each assembly is the one in its first shown row. */
  ghost predicate MainsMatch(rows: seq<AssemblyRow>, mains: map<Id, Id>) {
    && mains.Keys == (set k | 0 <= k < |rows| :: rows[k].id)
    && forall k :: 0 <= k < |rows| ==> mains[rows[k].id] == rows[k].main
  }

  lemma {:induction false} IdOfRow(rows: seq<AssemblyRow>)
    ensures |AssemblyIds(rows)| == |rows| && forall k :: 0 <= k < |rows| ==> AssemblyIds(rows)[k] == rows[k].id
  {
    if rows != [] { IdOfRow(rows[..|rows| - 1]); }
  }

  lemma NoMains()
    ensures MainsMatch([], map[])
  {
  }

  lemma KnownMain(rows: seq<AssemblyRow>, mains: map<Id, Id>)
    requires MainsMatch(rows, mains)
    ensures forall id :: id in mains <==> id in AssemblyIds(rows)
  {
    IdOfRow(rows);
    forall id ensures id in mains <==> id in AssemblyIds(rows) {
      if id in AssemblyIds(rows) { var k :| 0 <= k < |rows| && AssemblyIds(rows)[k] == id; }
      if id in mains { var k :| 0 <= k < |rows| && rows[k].id == id; assert AssemblyIds(rows)[k] == id; }
    }
  }

  lemma MoreMains(rows: seq<AssemblyRow>, row: AssemblyRow, mains: map<Id, Id>)
    requires MainsMatch(rows, mains) && row.id !in mains
    ensures MainsMatch(rows + [row], mains[row.id := row.main])
  {
    var more := rows + [row];
    assert (set k | 0 <= k < |more| :: more[k].id) == (set k | 0 <= k < |rows| :: rows[k].id) + {row.id} by {
      assert forall k :: 0 <= k < |rows| ==> more[k] == rows[k];
      assert more[|rows|] == row;
    }
  }

  /** Reads the assembly table: live assemblies in stored order, the first row of each. */
  method ListAssemblies(rows: seq<Option<AssemblyRow>>, endpoints: set<Id>)
    returns (ok: bool, order: seq<Id>, mains: map<Id, Id>)
    ensures ok <==> Readable(rows)
    ensures ok ==>
              order == AssemblyIds(KeptAssemblies(rows, endpoints))
                  && MainsMatch(KeptAssemblies(rows, endpoints), mains)
  {
    hide MainsMatch;
    NoMains();
    ok, order, mains := true, [], map[];
    for row := 0 to |rows|
      invariant ok && Readable(rows[..row])
      invariant order == AssemblyIds(KeptAssemblies(rows[..row], endpoints))
      invariant MainsMatch(KeptAssemblies(rows[..row], endpoints), mains)
    {
      if rows[row].None? { return false, order, mains; }
      ghost var before := KeptAssemblies(rows[..row], endpoints);
      assert rows[..row + 1][..row] == rows[..row];
      KnownMain(before, mains);
      var record := rows[row].value;
      if record.hidden || record.id == 0 || record.id !in endpoints || record.id in mains { continue; }
      assert (before + [record])[..|before|] == before;
      MoreMains(before, record, mains);
      mains := mains[record.id := record.main];
      order := order + [record.id];
    }
    assert rows[..|rows|] == rows;
  }

  // ----- Pours -----

  predicate PourLess(a: Pour, b: Pour) {
    a.pourUnit < b.pourUnit || (a.pourUnit == b.pourUnit && a.poured < b.poured)
  }

  ghost predicate PoursAscend(pours: seq<Pour>) {
    forall i, j :: 0 <= i < j < |pours| ==>
      pours[i].pourUnit < pours[j].pourUnit
          || (pours[i].pourUnit == pours[j].pourUnit && pours[i].poured < pours[j].poured)
  }

  lemma HeadIsLeast(pours: seq<Pour>)
    requires pours != [] && PoursAscend(pours)
    ensures forall p :: p in pours[1..] ==> PourLess(pours[0], p)
  {
    assert forall k :: 0 <= k < |pours[1..]| ==> pours[1..][k] == pours[k + 1];
  }

  /** Puts a pour in its sorted place; one already there is not repeated. */
  function InsertPour(pours: seq<Pour>, pour: Pour): (r: seq<Pour>)
    requires PoursAscend(pours)
    ensures PoursAscend(r)
    ensures forall p :: p in r <==> p in pours || p == pour
  {
    if pours == [] then [pour]
    else if PourLess(pour, pours[0]) then [pour] + pours
    else if pour == pours[0] then pours
    else
      assert pours == [pours[0]] + pours[1..];
      var rest := InsertPour(pours[1..], pour);
      HeadIsLeast(pours);
      assert forall k :: 0 <= k < |rest| ==> rest[k] in rest;
      [pours[0]] + rest
  }

  predicate StatesPour(row: Option<PourRow>, pour: Pour) {
    row.Some? && !row.value.hidden && row.value.pour == pour && pour.poured != 0 && pour.pourUnit != 0
        && pour.poured != pour.pourUnit
  }

  /** Some row states the membership. */
  ghost predicate Stated(rows: seq<Option<PourRow>>, pour: Pour) {
    exists k :: 0 <= k < |rows| && StatesPour(rows[k], pour)
  }

  /** Reads the pour table: each stated membership once, by unit and then by poured object. */
  method ListPours(rows: seq<Option<PourRow>>) returns (ok: bool, pours: seq<Pour>)
    ensures ok <==> Readable(rows)
    ensures ok ==> PoursAscend(pours) && forall p :: p in pours <==> Stated(rows, p)
  {
    ok, pours := true, [];
    for row := 0 to |rows|
      invariant ok && forall k :: 0 <= k < row ==> rows[k].Some?
      invariant PoursAscend(pours)
      invariant forall p :: p in pours <==> exists k :: 0 <= k < row && StatesPour(rows[k], p)
    {
      if rows[row].None? { return false, pours; }
      var record := rows[row].value;
      if record.hidden { continue; }
      var pour := record.pour;
      if pour.poured != 0 && pour.pourUnit != 0 && pour.poured != pour.pourUnit {
        assert StatesPour(rows[row], pour);
        pours := InsertPour(pours, pour);
      }
    }
  }

  lemma AscendingPoursAreDistinct(pours: seq<Pour>)
    requires PoursAscend(pours)
    ensures Distinct(pours)
  {
    forall i, j | 0 <= i < j < |pours| ensures pours[i] != pours[j] {
      assert PourLess(pours[i], pours[j]);
    }
  }

  // ----- The whole input -----

  /** No list repeats an entry, and every listed assembly has its main member. */
  ghost predicate WellBuilt(input: Input) {
    && WellFormed(input) && Distinct(input.assemblies) && Distinct(input.pours)
    && forall assembly :: Distinct(MembersOf(input, assembly))
  }

  /**
   The input holds what the tables state: the first shown row of every object id, the live
   assemblies with the main member of their first row, the objects that name each assembly in
   row order, and every stated pour membership once, in order.
   */
  ghost predicate StatedBy(input: Input, objectRows: seq<Option<ObjectRow>>, assemblyRows: seq<Option<AssemblyRow>>,
                           pourRows: seq<Option<PourRow>>) {
    var kept := KeptObjects(objectRows);
    var assemblies := KeptAssemblies(assemblyRows, input.endpoints);
    && input.objects == Elements(kept) && (forall id :: id in input.endpoints <==> id in ObjectIds(kept))
    && input.assemblies == AssemblyIds(assemblies) && MainsMatch(assemblies, input.mains)
    && MembersMatch(kept, input.members)
    && PoursAscend(input.pours) && forall p :: p in input.pours <==> Stated(pourRows, p)
  }

  lemma ListedMembersAreDistinct(rows: seq<ObjectRow>, input: Input)
    requires MembersMatch(rows, input.members) && Distinct(ObjectIds(rows))
    ensures forall assembly :: Distinct(MembersOf(input, assembly))
  {
    forall assembly ensures Distinct(MembersOf(input, assembly)) {
      MembersAreDistinct(rows, assembly);
      assert ListOf(input.members, assembly) == MembersOf(input, assembly);
    }
  }

  /** Builds the input of the stream; it fails exactly when a record lies outside the payload. */
  method MakeInput(objectRows: seq<Option<ObjectRow>>, assemblyRows: seq<Option<AssemblyRow>>,
                   pourRows: seq<Option<PourRow>>,
                   relations: Option<seq<Option<RelationRow>>>, joints: Option<seq<Option<JointRow>>>,
                   splices: seq<Splice>, surfaces: seq<SurfaceHost>) returns (input: Option<Input>)
    ensures input.Some? <==> Readable(objectRows) && Readable(assemblyRows) && Readable(pourRows)
    ensures input.Some? ==> WellBuilt(input.value) && StatedBy(input.value, objectRows, assemblyRows, pourRows)
    ensures input.Some? ==> input.value.relations == relations && input.value.joints == joints
    ensures input.Some? ==> input.value.splices == splices && input.value.surfaces == surfaces
  {
    hide KeptObjects, KeptAssemblies, Elements, MembersMatch, MainsMatch, Readable, Stated, PoursAscend;
    var ok, objects, endpoints, members := ListObjects(objectRows);
    if !ok { return None; }
    var read, order, mains := ListAssemblies(assemblyRows, endpoints);
    if !read { return None; }
    var poured, pours := ListPours(pourRows);
    if !poured { return None; }
    var made := Input(objects, endpoints, relations, joints, order, mains, members, pours, splices, surfaces);
    KeptIdsAreDistinct(objectRows);
    KeptAssembliesAreDistinct(assemblyRows, endpoints);
    KnownMain(KeptAssemblies(assemblyRows, endpoints), mains);
    ListedMembersAreDistinct(KeptObjects(objectRows), made);
    AscendingPoursAreDistinct(pours);
    return Some(made);
  }
}
