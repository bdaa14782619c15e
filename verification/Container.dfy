/**
 The physical container: delimited tables of fixed-size records, whose footer is settled by
 record alignment alone.
 */
module Container {
  import opened Wrappers

  type byte = b: nat | b < 256

  const TABLE_END: seq<byte> := [0x66, 0xc0, 0xce, 0xdb]
  const FOOTER_MAGIC: seq<byte> := [0x4f, 0x61, 0xbc, 0x00]

  const U32: nat := 0x1_0000_0000

  datatype Footer = Plain | Keyed(key: nat) | Connected(connectedKey: nat) | Final

  /** A table as the parser describes it. */
  datatype Table = Table(ordinal: nat, tupleSize: nat, descriptors: seq<nat>, rowCount: nat, footer: Footer,
                         visible: nat, invisible: nat, recordOffset: nat)

  function FooterSize(footer: Footer): nat {
    match footer
    case Plain => 5
    case Keyed(_) => 9
    case Connected(_) => 13
    case Final => 5
  }

  /** Marker, tuple and the two trailing words. */
  function RecordSize(tupleSize: nat): nat {
    1 + tupleSize + 8
  }

  function HeaderSize(fields: nat): nat {
    8 + 4 * fields
  }

  function U32At(bytes: seq<byte>, at: nat): (value: nat)
    requires at + 4 <= |bytes|
    ensures value < U32
  {
    (bytes[at] as int) + 0x100 * (bytes[at + 1] as int) + 0x10000 * (bytes[at + 2] as int)
        + 0x1000000 * (bytes[at + 3] as int)
  }

  /** Bit 3 of a record's marker hides the row. */
  predicate IsHidden(marker: byte) {
    marker / 8 % 2 == 1
  }

  // ----- One table -----

  /** The section holds a header, whole records and a footer of the given size. */
  predicate Aligned(section: seq<byte>, footerSize: nat) {
    && |section| >= footerSize + 8
    && var header, content := HeaderSize(U32At(section, 4)), |section| - footerSize;
    header <= content && (content - header) % RecordSize(U32At(section, 0)) == 0
  }

  function Rows(section: seq<byte>, footerSize: nat): nat
    requires Aligned(section, footerSize)
  {
    (|section| - footerSize - HeaderSize(U32At(section, 4))) / RecordSize(U32At(section, 0))
  }

  function Descriptors(section: seq<byte>, n: nat): (d: seq<nat>)
    requires HeaderSize(n) <= |section|
    ensures |d| == n
  {
    if n == 0 then [] else Descriptors(section, n - 1) + [U32At(section, 8 + 4 * (n - 1))]
  }

  predicate AreBytes(values: seq<nat>) {
    forall k :: 0 <= k < |values| ==> values[k] < 256
  }

  /** How many of the first `rows` records from `at` on are shown. */
  function Shown(section: seq<byte>, at: nat, recordSize: nat, rows: nat): (n: nat)
    requires recordSize >= 1 && at + rows * recordSize <= |section|
    ensures n <= rows
  {
    if rows == 0 then 0
    else
      LastRowFits(rows, recordSize);
      Shown(section, at, recordSize, rows - 1) + if IsHidden(section[at + (rows - 1) * recordSize]) then 0 else 1
  }

  lemma LastRowFits(rows: nat, recordSize: nat)
    requires rows > 0
    ensures (rows - 1) * recordSize + recordSize == rows * recordSize
  {
  }

  lemma ExactRows(section: seq<byte>, footerSize: nat)
    requires Aligned(section, footerSize)
    ensures HeaderSize(U32At(section, 4)) + Rows(section, footerSize) * RecordSize(U32At(section, 0)) + footerSize
              == |section|
  {
  }

  function ParseTable(section: seq<byte>, sectionOffset: nat, ordinal: nat, footer: Footer): Option<Table> {
    if !Aligned(section, FooterSize(footer)) then None
    else
      var tupleSize, fields, rows := U32At(section, 0), U32At(section, 4), Rows(section, FooterSize(footer));
      var descriptors := Descriptors(section, fields);
      if !AreBytes(descriptors) then None
      else
        ExactRows(section, FooterSize(footer));
        var shown := Shown(section, HeaderSize(fields), RecordSize(tupleSize), rows);
        Some(Table(ordinal, tupleSize, descriptors, rows, footer, shown, rows - shown,
                   sectionOffset + HeaderSize(fields)))
  }

  /** Reads one section as a table with a footer of the given kind. */
  method ReadTable(section: seq<byte>, sectionOffset: nat, ordinal: nat, footer: Footer) returns (table: Option<Table>)
    ensures table == ParseTable(section, sectionOffset, ordinal, footer)
  {
    hide U32At, Descriptors, Shown, AreBytes;
    var footerSize := FooterSize(footer);
    if |section| < footerSize + 8 { return None; }
    var tupleSize, fields := U32At(section, 0), U32At(section, 4);
    var header, recordSize, content := HeaderSize(fields), RecordSize(tupleSize), |section| - footerSize;
    if header > content { return None; }
    var body := content - header;
    if body % recordSize != 0 { return None; }
    var rows := body / recordSize;
    ExactRows(section, footerSize);
    var descriptors := ReadDescriptors(section, fields);
    if descriptors.None? { return None; }
    var visible, invisible := CountMarkers(section, header, recordSize, rows);
    return Some(Table(ordinal, tupleSize, descriptors.value, rows, footer, visible, invisible, sectionOffset + header));
  }

  method ReadDescriptors(section: seq<byte>, fields: nat) returns (descriptors: Option<seq<nat>>)
    requires HeaderSize(fields) <= |section|
    ensures descriptors == if AreBytes(Descriptors(section, fields)) then Some(Descriptors(section, fields)) else None
  {
    hide U32At;
    var read: seq<nat> := [];
    for k := 0 to fields
      invariant read == Descriptors(section, k) && AreBytes(read)
    {
      var descriptor := U32At(section, 8 + 4 * k);
      if descriptor > 255 {
        WideDescriptor(section, fields, k);
        return None;
      }
      read := read + [descriptor];
    }
    return Some(read);
  }

  /** Counts the shown and the hidden rows by their markers. */
  method CountMarkers(section: seq<byte>, header: nat, recordSize: nat, rows: nat)
    returns (visible: nat, invisible: nat)
    requires recordSize >= 1 && header + rows * recordSize <= |section|
    ensures visible == Shown(section, header, recordSize, rows) && invisible == rows - visible
  {
    hide IsHidden;
    visible, invisible := 0, 0;
    for row := 0 to rows
      invariant RowFits(row, rows, recordSize) && visible == Shown(section, header, recordSize, row)
      invariant invisible == row - visible
    {
      NextRowFits(row, rows, recordSize);
      var marker := section[header + row * recordSize];
      if IsHidden(marker) { invisible := invisible + 1; } else { visible := visible + 1; }
    }
  }

  predicate RowFits(row: nat, rows: nat, recordSize: nat) {
    row * recordSize <= rows * recordSize
  }

  lemma NextRowFits(row: nat, rows: nat, recordSize: nat)
    requires row < rows
    ensures row * recordSize + recordSize <= rows * recordSize && RowFits(row + 1, rows, recordSize)
    ensures (row + 1) * recordSize == row * recordSize + recordSize
  {
    var left := rows - row - 1;
    assert rows == row + 1 + left;
    assert rows * recordSize == row * recordSize + recordSize + left * recordSize;
  }

  lemma {:induction false} WideDescriptor(section: seq<byte>, fields: nat, k: nat)
    requires HeaderSize(fields) <= |section| && k < fields && U32At(section, 8 + 4 * k) > 255
    ensures !AreBytes(Descriptors(section, fields))
  {
    DescriptorAt(section, fields, k);
  }

  lemma {:induction false} DescriptorAt(section: seq<byte>, n: nat, k: nat)
    requires HeaderSize(n) <= |section| && k < n
    ensures Descriptors(section, n)[k] == U32At(section, 8 + 4 * k)
  {
    if k < n - 1 { DescriptorAt(section, n - 1, k); }
  }

  // ----- The footer of a delimited table -----

  predicate HasSuffix(bytes: seq<byte>, suffix: seq<byte>) {
    |bytes| >= |suffix| && bytes[|bytes| - |suffix|..] == suffix
  }

  predicate LooksConnected(section: seq<byte>) {
    && |section| >= 13 && section[|section| - 13] == 0 && section[|section| - 12..|section| - 8] == FOOTER_MAGIC
    && HasSuffix(section, TABLE_END)
  }

  predicate LooksKeyed(section: seq<byte>) {
    |section| >= 9 && section[|section| - 9] == 0 && HasSuffix(section, TABLE_END)
  }

  predicate LooksPlain(section: seq<byte>) {
    |section| >= 5 && section[|section| - 5] == 0 && HasSuffix(section, TABLE_END)
  }

  /** The readings of the footer that its bytes allow, in the order they are tried. */
  function Candidates(section: seq<byte>): seq<Footer> {
    (if LooksConnected(section) then [Connected(U32At(section, |section| - 8))] else [])
    + (if LooksKeyed(section) then [Keyed(U32At(section, |section| - 8))] else [])
    + (if LooksPlain(section) then [Plain] else [])
  }

  function FirstParsed(section: seq<byte>, sectionOffset: nat, ordinal: nat, candidates: seq<Footer>): Option<Table> {
    if candidates == [] then None
    else
      var parsed := ParseTable(section, sectionOffset, ordinal, candidates[0]);
      if parsed.Some? then parsed else FirstParsed(section, sectionOffset, ordinal, candidates[1..])
  }

  function ParseDelimited(section: seq<byte>, sectionOffset: nat, ordinal: nat): Option<Table> {
    FirstParsed(section, sectionOffset, ordinal, Candidates(section))
  }

  method ReadDelimited(section: seq<byte>, sectionOffset: nat, ordinal: nat) returns (table: Option<Table>)
    ensures table == ParseDelimited(section, sectionOffset, ordinal)
  {
    hide ParseTable;
    var candidates: seq<Footer> := [];
    if LooksConnected(section) { candidates := candidates + [Connected(U32At(section, |section| - 8))]; }
    if LooksKeyed(section) { candidates := candidates + [Keyed(U32At(section, |section| - 8))]; }
    if LooksPlain(section) { candidates := candidates + [Plain]; }
    assert candidates == Candidates(section) && candidates[0..] == candidates;
    for k := 0 to |candidates|
      invariant ParseDelimited(section, sectionOffset, ordinal)
                  == FirstParsed(section, sectionOffset, ordinal, candidates[k..])
    {
      var parsed := ReadTable(section, sectionOffset, ordinal, candidates[k]);
      assert candidates[k..][1..] == candidates[k + 1..];
      if parsed.Some? { return parsed; }
    }
    return None;
  }

  /** Of the three footer sizes at most one leaves whole records, because records have at least nine bytes. */
  lemma OneFooterAligns(section: seq<byte>, a: nat, b: nat)
    requires a in {5, 9, 13} && b in {5, 9, 13} && Aligned(section, a) && Aligned(section, b)
    ensures a == b
  {
    var size := RecordSize(U32At(section, 0));
    ExactRows(section, a);
    ExactRows(section, b);
    var rowsA, rowsB := Rows(section, a), Rows(section, b);
    if rowsA < rowsB {
      NextRowFits(rowsA, rowsB, size);
    } else if rowsB < rowsA {
      NextRowFits(rowsB, rowsA, size);
    }
  }

  // ----- The whole payload -----

  /** The ends of all delimiters from an offset on; a delimiter found is stepped over. */
  function Scan(bytes: seq<byte>, offset: nat): (ends: seq<nat>)
    ensures forall k :: 0 <= k < |ends| ==> offset + 4 <= ends[k] <= |bytes|
    ensures forall i, j :: 0 <= i < j < |ends| ==> ends[i] + 4 <= ends[j]
    decreases |bytes| - offset
  {
    if offset + 4 > |bytes| then []
    else if bytes[offset..offset + 4] == TABLE_END then [offset + 4] + Scan(bytes, offset + 4)
    else Scan(bytes, offset + 1)
  }

  method FindDelimiters(bytes: seq<byte>) returns (ends: seq<nat>)
    ensures ends == Scan(bytes, 0)
  {
    ends := [];
    var offset := 0;
    while offset + 4 <= |bytes|
      invariant Scan(bytes, 0) == ends + Scan(bytes, offset)
    {
      if bytes[offset..offset + 4] == TABLE_END {
        ends := ends + [offset + 4];
        offset := offset + 3;
      }
      offset := offset + 1;
    }
  }

  predicate EndsFinally(trailing: seq<byte>) {
    |trailing| >= 5 && trailing[|trailing| - 5] == 0 && HasSuffix(trailing, FOOTER_MAGIC)
  }

  ghost predicate Ascending(bytes: seq<byte>, start: nat, ends: seq<nat>) {
    && start <= |bytes|
    && (forall k :: 0 <= k < |ends| ==> start <= ends[k] <= |bytes|)
    && forall i, j :: 0 <= i < j < |ends| ==> ends[i] <= ends[j]
  }

  /** The tables of the sections that end at the given positions, and the final one. */
  function ParseAll(bytes: seq<byte>, start: nat, ends: seq<nat>, ordinal: nat): Option<seq<Table>>
    requires Ascending(bytes, start, ends)
    decreases |ends|
  {
    if ends == [] then
      if !EndsFinally(bytes[start..]) then None
      else
        var table := ParseTable(bytes[start..], start, ordinal, Final);
        if table.None? then None else Some([table.value])
    else
      var table := ParseDelimited(bytes[start..ends[0]], start, ordinal);
      var rest := ParseAll(bytes, ends[0], ends[1..], ordinal + 1);
      if table.None? || rest.None? then None else Some([table.value] + rest.value)
  }

  function InspectTables(bytes: seq<byte>): Option<seq<Table>> {
    var ends := Scan(bytes, 0);
    if ends == [] then None else ParseAll(bytes, ends[0], ends[1..], 0)
  }

  datatype Layout = Layout(tables: seq<Table>, visible: nat, invisible: nat)

  function TotalShown(tables: seq<Table>): nat {
    if tables == [] then 0 else TotalShown(tables[..|tables| - 1]) + tables[|tables| - 1].visible
  }

  function TotalHidden(tables: seq<Table>): nat {
    if tables == [] then 0 else TotalHidden(tables[..|tables| - 1]) + tables[|tables| - 1].invisible
  }

  function TotalRows(tables: seq<Table>): nat {
    if tables == [] then 0 else TotalRows(tables[..|tables| - 1]) + tables[|tables| - 1].rowCount
  }

  /** Splits the payload at its delimiters and reads every table. */
  method Inspect(bytes: seq<byte>) returns (layout: Option<Layout>)
    ensures layout.Some? <==> InspectTables(bytes).Some?
    ensures layout.Some? ==> InspectTables(bytes) == Some(layout.value.tables)
    ensures layout.Some? ==>
              layout.value.visible == TotalShown(layout.value.tables)
                  && layout.value.invisible == TotalHidden(layout.value.tables)
  {
    hide Scan, ParseDelimited, ParseTable, EndsFinally, InspectTables, ParseAll, Ascending;
    var ends := FindDelimiters(bytes);
    InspectStarts(bytes);
    if ends == [] { return None; }
    var start := ends[0];
    PrefixedNothing(ParseAll(bytes, start, ends[1..], 0));
    var tables: seq<Table>, visible, invisible := [], 0, 0;
    for k := 1 to |ends|
      invariant start == ends[k - 1]
      invariant Ascending(bytes, start, ends[k..])
      invariant InspectTables(bytes) == Prefixed(tables, ParseAll(bytes, start, ends[k..], k - 1))
      invariant |tables| == k - 1 && visible == TotalShown(tables) && invisible == TotalHidden(tables)
    {
      ParseStep(bytes, start, ends, k);
      var table := ReadDelimited(bytes[start..ends[k]], start, k - 1);
      if table.None? { return None; }
      PrefixedOne(tables, table.value, ParseAll(bytes, ends[k], ends[k + 1..], k));
      AddTable(tables, table.value);
      visible := visible + table.value.visible;
      invisible := invisible + table.value.invisible;
      tables := tables + [table.value];
      start := ends[k];
    }
    ParseLast(bytes, start, ends);
    var trailing := bytes[start..];
    if !EndsFinally(trailing) { return None; }
    var last := ReadTable(trailing, start, |tables|, Final);
    if last.None? { return None; }
    AddTable(tables, last.value);
    return Some(Layout(tables + [last.value], visible + last.value.visible, invisible + last.value.invisible));
  }

  function Prefixed(before: seq<Table>, rest: Option<seq<Table>>): Option<seq<Table>> {
    if rest.None? then None else Some(before + rest.value)
  }

  lemma InspectStarts(bytes: seq<byte>)
    ensures var ends := Scan(bytes, 0);
            if ends == [] then InspectTables(bytes) == None
            else Ascending(bytes, ends[0], ends[1..]) && InspectTables(bytes) == ParseAll(bytes, ends[0], ends[1..], 0)
  {
    hide Scan, ParseAll;
  }

  lemma ParseStep(bytes: seq<byte>, start: nat, ends: seq<nat>, k: nat)
    requires 1 <= k < |ends| && Ascending(bytes, start, ends[k..])
    ensures start <= ends[k] <= |bytes| && Ascending(bytes, ends[k], ends[k + 1..])
    ensures var table := ParseDelimited(bytes[start..ends[k]], start, k - 1);
            var rest := ParseAll(bytes, ends[k], ends[k + 1..], k);
            ParseAll(bytes, start, ends[k..], k - 1) ==
              if table.None? || rest.None? then None else Some([table.value] + rest.value)
  {
    hide ParseDelimited, ParseTable, EndsFinally;
    assert ends[k..][0] == ends[k] && ends[k..][1..] == ends[k + 1..];
  }

  lemma ParseLast(bytes: seq<byte>, start: nat, ends: seq<nat>)
    requires Ascending(bytes, start, ends[|ends|..])
    ensures start <= |bytes|
    ensures forall ordinal :: ParseAll(bytes, start, ends[|ends|..], ordinal) ==
              var table := ParseTable(bytes[start..], start, ordinal, Final);
              if !EndsFinally(bytes[start..]) || table.None? then None else Some([table.value])
  {
    hide ParseDelimited, ParseTable, EndsFinally;
    assert ends[|ends|..] == [];
  }

  lemma PrefixedNothing(rest: Option<seq<Table>>)
    ensures Prefixed([], rest) == rest
  {
    if rest.Some? { assert [] + rest.value == rest.value; }
  }

  lemma PrefixedOne(before: seq<Table>, table: Table, rest: Option<seq<Table>>)
    ensures rest.Some? ==> before + ([table] + rest.value) == (before + [table]) + rest.value
  {
  }

  lemma AddTable(tables: seq<Table>, table: Table)
    ensures TotalShown(tables + [table]) == TotalShown(tables) + table.visible
    ensures TotalHidden(tables + [table]) == TotalHidden(tables) + table.invisible
    ensures TotalRows(tables + [table]) == TotalRows(tables) + table.rowCount
  {
    assert (tables + [table])[..|tables|] == tables;
  }

  // ----- Tiling and records -----

  /** Where a table's section begins and ends, and where its rows end. */
  function SectionStart(table: Table): int {
    table.recordOffset - HeaderSize(|table.descriptors|)
  }

  function RowsEnd(table: Table): nat {
    table.recordOffset + table.rowCount * RecordSize(table.tupleSize)
  }

  function SectionEnd(table: Table): nat {
    RowsEnd(table) + FooterSize(table.footer)
  }

  /** The sections follow each other without gap or overlap up to the end of the payload. */
  ghost predicate Tiles(tables: seq<Table>, start: nat, end: nat) {
    && |tables| >= 1 && SectionStart(tables[0]) == start && SectionEnd(tables[|tables| - 1]) == end
    && forall i :: 0 <= i < |tables| - 1 ==> SectionEnd(tables[i]) == SectionStart(tables[i + 1])
  }

  ghost predicate CountsRows(tables: seq<Table>) {
    forall i :: 0 <= i < |tables| ==> tables[i].visible + tables[i].invisible == tables[i].rowCount
  }

  lemma ParsedFills(section: seq<byte>, sectionOffset: nat, ordinal: nat, footer: Footer)
    requires ParseTable(section, sectionOffset, ordinal, footer).Some?
    ensures var t := ParseTable(section, sectionOffset, ordinal, footer).value;
            && SectionStart(t) == sectionOffset && SectionEnd(t) == sectionOffset + |section|
            && t.visible + t.invisible == t.rowCount && t.footer == footer && t.ordinal == ordinal
  {
    ExactRows(section, FooterSize(footer));
  }

  lemma {:induction false} FirstFills(section: seq<byte>, sectionOffset: nat, ordinal: nat, candidates: seq<Footer>)
    requires FirstParsed(section, sectionOffset, ordinal, candidates).Some?
    ensures var t := FirstParsed(section, sectionOffset, ordinal, candidates).value;
            && SectionStart(t) == sectionOffset && SectionEnd(t) == sectionOffset + |section|
            && t.visible + t.invisible == t.rowCount && t.ordinal == ordinal
    decreases |candidates|
  {
    hide ParseTable;
    if ParseTable(section, sectionOffset, ordinal, candidates[0]).Some? {
      ParsedFills(section, sectionOffset, ordinal, candidates[0]);
    } else {
      FirstFills(section, sectionOffset, ordinal, candidates[1..]);
    }
  }

  lemma {:induction false} ParsedTile(bytes: seq<byte>, start: nat, ends: seq<nat>, ordinal: nat)
    requires Ascending(bytes, start, ends) && ParseAll(bytes, start, ends, ordinal).Some?
    ensures var tables := ParseAll(bytes, start, ends, ordinal).value;
            Tiles(tables, start, |bytes|) && CountsRows(tables) && |tables| == |ends| + 1
    decreases |ends|
  {
    hide ParseTable, ParseDelimited, EndsFinally, SectionStart, SectionEnd;
    if ends == [] {
      ParsedFills(bytes[start..], start, ordinal, Final);
    } else {
      var section, rest := bytes[start..ends[0]], ParseAll(bytes, ends[0], ends[1..], ordinal + 1);
      DelimitedFills(section, start, ordinal);
      ParsedTile(bytes, ends[0], ends[1..], ordinal + 1);
      TileFront(ParseDelimited(section, start, ordinal).value, rest.value, start, ends[0], |bytes|);
    }
  }

  lemma DelimitedFills(section: seq<byte>, sectionOffset: nat, ordinal: nat)
    requires ParseDelimited(section, sectionOffset, ordinal).Some?
    ensures var t := ParseDelimited(section, sectionOffset, ordinal).value;
            && SectionStart(t) == sectionOffset && SectionEnd(t) == sectionOffset + |section|
            && t.visible + t.invisible == t.rowCount && t.ordinal == ordinal
  {
    FirstFills(section, sectionOffset, ordinal, Candidates(section));
  }

  lemma TileFront(first: Table, rest: seq<Table>, start: nat, middle: nat, end: nat)
    requires SectionStart(first) == start && SectionEnd(first) == middle && Tiles(rest, middle, end)
    requires first.visible + first.invisible == first.rowCount && CountsRows(rest)
    ensures Tiles([first] + rest, start, end) && CountsRows([first] + rest)
  {
    hide SectionStart, SectionEnd;
    var all := [first] + rest;
    assert all[|all| - 1] == rest[|rest| - 1];
    forall i | 0 <= i < |all| - 1 ensures SectionEnd(all[i]) == SectionStart(all[i + 1]) {
      if i > 0 { assert all[i] == rest[i - 1] && all[i + 1] == rest[i]; }
    }
  }

  /** Every accepted payload is tiled by its tables after the global header, and every row is counted once. */
  lemma AcceptedPayloadIsTiled(bytes: seq<byte>)
    requires InspectTables(bytes).Some?
    ensures var tables := InspectTables(bytes).value;
            && Tiles(tables, Scan(bytes, 0)[0], |bytes|)
            && CountsRows(tables) && TotalShown(tables) + TotalHidden(tables) == TotalRows(tables)
  {
    hide Scan, ParseAll;
    var ends := Scan(bytes, 0);
    ParsedTile(bytes, ends[0], ends[1..], 0);
    TotalsAgree(InspectTables(bytes).value);
  }

  lemma {:induction false} TotalsAgree(tables: seq<Table>)
    requires CountsRows(tables)
    ensures TotalShown(tables) + TotalHidden(tables) == TotalRows(tables)
  {
    if tables != [] { TotalsAgree(tables[..|tables| - 1]); }
  }

  /** A record of the payload; out-of-range rows give nothing. */
  function Record(table: Table, payload: seq<byte>, index: nat): (record: seq<byte>) {
    var size := RecordSize(table.tupleSize);
    if index >= table.rowCount || table.recordOffset > |payload| || size > |payload| - table.recordOffset ||
       index > (|payload| - table.recordOffset - size) / size then []
    else
      LastIndexFits(index, |payload| - table.recordOffset - size, size);
      payload[table.recordOffset + index * size..table.recordOffset + index * size + size]
  }

  lemma LastIndexFits(index: nat, room: nat, size: nat)
    requires size > 0 && index <= room / size
    ensures index * size <= room
  {
    var quotient := room / size;
    assert quotient * size <= room;
    if index < quotient { NextRowFits(index, quotient, size); }
  }

  lemma IndexInRange(index: nat, room: nat, size: nat)
    requires size > 0 && index * size <= room
    ensures index <= room / size
  {
    var quotient := room / size;
    assert room < quotient * size + size;
    if quotient < index { NextRowFits(quotient, index, size); }
  }

  /** Every row of a table inside the payload has a full-size record inside the table's own section. */
  lemma RecordsAreWhole(table: Table, payload: seq<byte>, index: nat)
    requires SectionEnd(table) <= |payload| && index < table.rowCount
    ensures |Record(table, payload, index)| == RecordSize(table.tupleSize)
    ensures var from := table.recordOffset + index * RecordSize(table.tupleSize);
            && from + RecordSize(table.tupleSize) <= RowsEnd(table)
            && Record(table, payload, index) == payload[from..from + RecordSize(table.tupleSize)]
  {
    var size := RecordSize(table.tupleSize);
    NextRowFits(index, table.rowCount, size);
    IndexInRange(index, |payload| - table.recordOffset - size, size);
  }

  /** Records of different rows do not overlap. */
  lemma RecordsAreDisjoint(table: Table, i: nat, j: nat)
    requires i < j
    ensures table.recordOffset + i * RecordSize(table.tupleSize) + RecordSize(table.tupleSize)
            <= table.recordOffset + j * RecordSize(table.tupleSize)
  {
    NextRowFits(i, j, RecordSize(table.tupleSize));
  }

  lemma {:induction false} SectionsAscend(tables: seq<Table>, start: nat, end: nat, i: nat, j: nat)
    requires Tiles(tables, start, end) && i < j < |tables|
    ensures SectionEnd(tables[i]) <= SectionStart(tables[j])
    decreases j - i
  {
    hide RecordSize;
    if i + 1 < j { SectionsAscend(tables, start, end, i, j - 1); }
  }

  /** In an accepted payload, rows of any two places of any two tables are distinct bytes of it. */
  lemma TablesAreDisjoint(bytes: seq<byte>, i: nat, j: nat)
    requires InspectTables(bytes).Some? && i < j < |InspectTables(bytes).value|
    ensures var tables := InspectTables(bytes).value;
            RowsEnd(tables[i]) <= tables[j].recordOffset && SectionEnd(tables[j]) <= |bytes|
  {
    hide ParseAll, Scan, RecordSize;
    AcceptedPayloadIsTiled(bytes);
    var tables := InspectTables(bytes).value;
    var last := |tables| - 1;
    SectionsAscend(tables, Scan(bytes, 0)[0], |bytes|, i, j);
    if j < last { SectionsAscend(tables, Scan(bytes, 0)[0], |bytes|, j, last); }
  }
}
