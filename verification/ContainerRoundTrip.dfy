/**
 The writing side of the container, and the round trip: reading a written payload recovers
 every table, whichever footers were used.
 */
module ContainerRoundTrip {
  import opened Container
  import opened Wrappers

  /** A table to write: its rows are whole records, markers included. */
  datatype Spec = Spec(tupleSize: nat, descriptors: seq<byte>, rows: seq<seq<byte>>, footer: Footer)

  ghost predicate Writable(spec: Spec) {
    && spec.tupleSize < U32 && |spec.descriptors| < U32
    && (spec.footer.Keyed? ==> spec.footer.key < U32) && (spec.footer.Connected? ==> spec.footer.connectedKey < U32)
    && forall k :: 0 <= k < |spec.rows| ==> |spec.rows[k]| == RecordSize(spec.tupleSize)
  }

  // ----- Writing -----

  function EncodeU32(value: nat): (bytes: seq<byte>)
    requires value < U32
    ensures |bytes| == 4
  {
    [value % 0x100, value / 0x100 % 0x100, value / 0x10000 % 0x100, value / 0x1000000]
  }

  /** The little-endian bytes of a word, pushed one at a time. */
  method AppendU32(before: seq<byte>, value: nat) returns (bytes: seq<byte>)
    requires value < U32
    ensures bytes == before + EncodeU32(value)
  {
    bytes := before;
    var rest := value;
    for k := 0 to 4
      invariant rest == if k == 0 then value else if k == 1 then value / 0x100 else if k == 2 then value / 0x10000
                        else if k == 3 then value / 0x1000000 else 0
      invariant bytes == before + EncodeU32(value)[..k]
    {
      ghost var was := bytes;
      bytes := bytes + [rest % 0x100];
      rest := rest / 0x100;
      assert EncodeU32(value)[..k + 1] == EncodeU32(value)[..k] + [EncodeU32(value)[k]];
    }
    assert EncodeU32(value)[..4] == EncodeU32(value);
  }

  function EncodeDescriptors(descriptors: seq<byte>): (bytes: seq<byte>)
    ensures |bytes| == 4 * |descriptors|
  {
    if descriptors == [] then []
    else EncodeDescriptors(descriptors[..|descriptors| - 1]) + EncodeU32(descriptors[|descriptors| - 1])
  }

  function EncodeRows(rows: seq<seq<byte>>): seq<byte> {
    if rows == [] then [] else EncodeRows(rows[..|rows| - 1]) + rows[|rows| - 1]
  }

  function EncodeFooter(footer: Footer): (bytes: seq<byte>)
    requires (footer.Keyed? ==> footer.key < U32) && (footer.Connected? ==> footer.connectedKey < U32)
    ensures |bytes| == FooterSize(footer)
  {
    match footer
    case Plain => [0] + TABLE_END
    case Keyed(key) => [0] + EncodeU32(key) + TABLE_END
    case Connected(key) => [0] + FOOTER_MAGIC + EncodeU32(key) + TABLE_END
    case Final => [0] + FOOTER_MAGIC
  }

  function EncodeHeader(spec: Spec): (bytes: seq<byte>)
    requires Writable(spec)
    ensures |bytes| == HeaderSize(|spec.descriptors|)
  {
    EncodeU32(spec.tupleSize) + EncodeU32(|spec.descriptors|) + EncodeDescriptors(spec.descriptors)
  }

  function EncodeTable(spec: Spec): seq<byte>
    requires Writable(spec)
  {
    EncodeHeader(spec) + EncodeRows(spec.rows) + EncodeFooter(spec.footer)
  }

  method AppendTable(before: seq<byte>, spec: Spec) returns (bytes: seq<byte>)
    requires Writable(spec)
    ensures bytes == before + EncodeTable(spec)
  {
    hide EncodeU32, EncodeFooter;
    bytes := AppendU32(before, spec.tupleSize);
    bytes := AppendU32(bytes, |spec.descriptors|);
    ghost var sized := bytes;
    for k := 0 to |spec.descriptors|
      invariant bytes == sized + EncodeDescriptors(spec.descriptors[..k])
    {
      assert spec.descriptors[..k + 1][..k] == spec.descriptors[..k];
      bytes := AppendU32(bytes, spec.descriptors[k]);
    }
    assert spec.descriptors[..|spec.descriptors|] == spec.descriptors;
    assert bytes == before + EncodeHeader(spec);
    ghost var headed := bytes;
    for k := 0 to |spec.rows|
      invariant bytes == headed + EncodeRows(spec.rows[..k])
    {
      assert spec.rows[..k + 1][..k] == spec.rows[..k];
      bytes := bytes + spec.rows[k];
    }
    assert spec.rows[..|spec.rows|] == spec.rows;
    bytes := bytes + EncodeFooter(spec.footer);
  }

  // ----- Reading one written table -----

  lemma ReadsBack(value: nat, before: seq<byte>, after: seq<byte>)
    requires value < U32
    ensures |before + EncodeU32(value) + after| >= |before| + 4
    ensures U32At(before + EncodeU32(value) + after, |before|) == value
  {
    var word, all := EncodeU32(value), before + EncodeU32(value) + after;
    Digits(value);
    assert all[|before|] == word[0] && all[|before| + 1] == word[1] && all[|before| + 2] == word[2]
        && all[|before| + 3] == word[3] by {
      hide EncodeU32;
    }
  }

  lemma Digits(value: nat)
    requires value < U32
    ensures value % 0x100 + 0x100 * (value / 0x100 % 0x100) + 0x10000 * (value / 0x10000 % 0x100)
        + 0x1000000 * (value / 0x1000000) == value
  {
  }

  lemma {:induction false} DescriptorsReadBack(before: seq<byte>, descriptors: seq<byte>, after: seq<byte>, k: nat)
    requires k < |descriptors|
    ensures |before + EncodeDescriptors(descriptors) + after| >= |before| + 4 * k + 4
    ensures U32At(before + EncodeDescriptors(descriptors) + after, |before| + 4 * k) == descriptors[k]
    decreases |descriptors|
  {
    hide EncodeU32, U32At;
    var n := |descriptors| - 1;
    var front, last := EncodeDescriptors(descriptors[..n]), EncodeU32(descriptors[n]);
    if k == n {
      ReadsBack(descriptors[n], before + front, after);
      assert before + EncodeDescriptors(descriptors) + after == before + front + last + after;
    } else {
      DescriptorsReadBack(before, descriptors[..n], last + after, k);
      assert before + EncodeDescriptors(descriptors) + after == before + front + (last + after);
    }
  }

  lemma {:induction false} DescriptorsMatch(section: seq<byte>, descriptors: seq<byte>, n: nat)
    requires n <= |descriptors| && HeaderSize(n) <= |section|
    requires forall k :: 0 <= k < n ==> U32At(section, 8 + 4 * k) == descriptors[k]
    ensures Container.Descriptors(section, n) == descriptors[..n]
  {
    hide U32At;
    if n > 0 {
      DescriptorsMatch(section, descriptors, n - 1);
      assert descriptors[..n] == descriptors[..n - 1] + [descriptors[n - 1]];
    }
  }

  function ShownRows(rows: seq<seq<byte>>): nat
    requires forall k :: 0 <= k < |rows| ==> |rows[k]| >= 1
  {
    if rows == [] then 0
    else ShownRows(rows[..|rows| - 1]) + if IsHidden(rows[|rows| - 1][0]) then 0 else 1
  }

  lemma {:induction false} RowsLength(rows: seq<seq<byte>>, size: nat)
    requires forall k :: 0 <= k < |rows| ==> |rows[k]| == size
    ensures |EncodeRows(rows)| == |rows| * size
  {
    if rows != [] {
      RowsLength(rows[..|rows| - 1], size);
      LastRowFits(|rows|, size);
    }
  }

  lemma {:induction false} MarkersReadBack(before: seq<byte>, rows: seq<seq<byte>>, after: seq<byte>, size: nat)
    requires size >= 1 && forall k :: 0 <= k < |rows| ==> |rows[k]| == size
    ensures |before| + |rows| * size <= |before + EncodeRows(rows) + after|
    ensures Shown(before + EncodeRows(rows) + after, |before|, size, |rows|) == ShownRows(rows)
    decreases |rows|
  {
    hide IsHidden;
    RowsLength(rows, size);
    if rows != [] {
      var n := |rows| - 1;
      var all := before + EncodeRows(rows) + after;
      RowsLength(rows[..n], size);
      LastRowFits(|rows|, size);
      MarkersReadBack(before, rows[..n], rows[n] + after, size);
      assert all == before + EncodeRows(rows[..n]) + (rows[n] + after);
      assert all[|before| + n * size] == rows[n][0];
    }
  }

  /** The table a reader should describe for what was written. */
  ghost function Described(spec: Spec, offset: nat, ordinal: nat): Table
    requires Writable(spec)
  {
    var shown := ShownRows(spec.rows);
    ShownAreFew(spec.rows);
    Table(ordinal, spec.tupleSize, spec.descriptors, |spec.rows|, spec.footer, shown, |spec.rows| - shown,
          offset + HeaderSize(|spec.descriptors|))
  }

  lemma {:induction false} ShownAreFew(rows: seq<seq<byte>>)
    requires forall k :: 0 <= k < |rows| ==> |rows[k]| >= 1
    ensures ShownRows(rows) <= |rows|
  {
    if rows != [] { ShownAreFew(rows[..|rows| - 1]); }
  }

  lemma HeaderReadsBack(spec: Spec)
    requires Writable(spec)
    ensures var section := EncodeTable(spec);
            && |section| == HeaderSize(|spec.descriptors|) + |spec.rows| * RecordSize(spec.tupleSize)
                + FooterSize(spec.footer)
            && U32At(section, 0) == spec.tupleSize && U32At(section, 4) == |spec.descriptors|
            && Container.Descriptors(section, |spec.descriptors|) == spec.descriptors
  {
    hide EncodeU32, U32At, EncodeFooter;
    var section := EncodeTable(spec);
    var rest := EncodeRows(spec.rows) + EncodeFooter(spec.footer);
    var tuple, count, fields :=
        EncodeU32(spec.tupleSize), EncodeU32(|spec.descriptors|), EncodeDescriptors(spec.descriptors);
    RowsLength(spec.rows, RecordSize(spec.tupleSize));
    ReadsBack(spec.tupleSize, [], count + fields + rest);
    assert section == [] + tuple + (count + fields + rest);
    ReadsBack(|spec.descriptors|, tuple, fields + rest);
    assert section == tuple + count + (fields + rest);
    assert section == (tuple + count) + fields + rest;
    forall k | 0 <= k < |spec.descriptors| ensures U32At(section, 8 + 4 * k) == spec.descriptors[k] {
      DescriptorsReadBack(tuple + count, spec.descriptors, rest, k);
    }
    DescriptorsMatch(section, spec.descriptors, |spec.descriptors|);
    assert spec.descriptors[..|spec.descriptors|] == spec.descriptors;
  }

  lemma DivideExactly(rows: nat, size: nat)
    requires size > 0
    ensures rows * size % size == 0 && rows * size / size == rows
  {
    var quotient := rows * size / size;
    if quotient < rows { NextRowFits(quotient, rows, size); }
    if rows < quotient { NextRowFits(rows, quotient, size); }
  }

  /** Reading a written table with its own footer gives back what was written. */
  lemma TableReadsBack(spec: Spec, offset: nat, ordinal: nat)
    requires Writable(spec)
    ensures ParseTable(EncodeTable(spec), offset, ordinal, spec.footer) == Some(Described(spec, offset, ordinal))
  {
    hide EncodeU32, U32At, EncodeFooter, Container.Descriptors, Shown, ShownRows, EncodeHeader, EncodeRows;
    var section, size := EncodeTable(spec), RecordSize(spec.tupleSize);
    HeaderReadsBack(spec);
    DivideExactly(|spec.rows|, size);
    RowsLength(spec.rows, size);
    MarkersReadBack(EncodeHeader(spec), spec.rows, EncodeFooter(spec.footer), size);
  }

  // ----- Reading one delimited table -----

  lemma {:induction false} FirstParsedIs(section: seq<byte>, offset: nat, ordinal: nat, candidates: seq<Footer>,
                                         footer: Footer)
    requires footer in candidates && ParseTable(section, offset, ordinal, footer).Some?
    requires forall c :: c in candidates ==>
               FooterSize(c) in {5, 9, 13} && (FooterSize(c) == FooterSize(footer) ==> c == footer)
    ensures FirstParsed(section, offset, ordinal, candidates) == ParseTable(section, offset, ordinal, footer)
    decreases |candidates|
  {
    hide Aligned, U32At, Container.Descriptors, Shown;
    var first := candidates[0];
    assert first in candidates;
    if ParseTable(section, offset, ordinal, first).Some? {
      OneFooterAligns(section, FooterSize(first), FooterSize(footer));
    } else {
      FirstParsedIs(section, offset, ordinal, candidates[1..], footer);
    }
  }

  lemma KeyedIsCandidate(front: seq<byte>, key: nat)
    requires key < U32
    ensures Keyed(key) in Candidates(front + EncodeFooter(Keyed(key)))
  {
    hide EncodeU32, U32At, LooksConnected, LooksPlain;
    var section := front + EncodeFooter(Keyed(key));
    ReadsBack(key, front + [0], TABLE_END);
    assert section == front + [0] + EncodeU32(key) + TABLE_END;
    assert LooksKeyed(section);
  }

  lemma ConnectedIsCandidate(front: seq<byte>, key: nat)
    requires key < U32
    ensures Connected(key) in Candidates(front + EncodeFooter(Connected(key)))
  {
    hide EncodeU32, U32At, LooksKeyed, LooksPlain;
    var section := front + EncodeFooter(Connected(key));
    ReadsBack(key, front + [0] + FOOTER_MAGIC, TABLE_END);
    assert section == front + [0] + FOOTER_MAGIC + EncodeU32(key) + TABLE_END;
    assert section[|section| - 12..|section| - 8] == FOOTER_MAGIC;
    assert LooksConnected(section);
  }

  /** The bytes of a written footer allow its own reading. */
  lemma FooterIsCandidate(front: seq<byte>, footer: Footer)
    requires !footer.Final? && (footer.Keyed? ==> footer.key < U32) && (footer.Connected? ==> footer.connectedKey < U32)
    ensures footer in Candidates(front + EncodeFooter(footer))
  {
    match footer
    case Plain =>
      hide LooksKeyed, LooksConnected;
      assert LooksPlain(front + EncodeFooter(footer));
    case Keyed(key) =>
      hide *;
      KeyedIsCandidate(front, key);
    case Connected(key) =>
      hide *;
      ConnectedIsCandidate(front, key);
  }

  /** A written table is recognised whichever other footers its bytes could be read as. */
  lemma DelimitedReadsBack(spec: Spec, offset: nat, ordinal: nat)
    requires Writable(spec) && !spec.footer.Final?
    ensures ParseDelimited(EncodeTable(spec), offset, ordinal) == Some(Described(spec, offset, ordinal))
  {
    hide ParseTable, EncodeRows, EncodeHeader, EncodeFooter, Described;
    TableReadsBack(spec, offset, ordinal);
    FooterIsCandidate(EncodeHeader(spec) + EncodeRows(spec.rows), spec.footer);
    FirstParsedIs(EncodeTable(spec), offset, ordinal, Candidates(EncodeTable(spec)), spec.footer);
  }

  // ----- The whole payload -----

  predicate DelimiterAt(section: seq<byte>, k: nat) {
    k + 4 <= |section| && section[k..k + 4] == TABLE_END
  }

  /** The delimiter ends the section and occurs nowhere else in it. */
  ghost predicate Clean(section: seq<byte>) {
    && |section| >= 4 && section[|section| - 4..] == TABLE_END
    && forall k :: 0 <= k < |section| - 4 ==> !DelimiterAt(section, k)
  }

  ghost predicate NoDelimiter(section: seq<byte>) {
    forall k :: 0 <= k <= |section| - 4 ==> !DelimiterAt(section, k)
  }

  ghost predicate WritableAll(specs: seq<Spec>, last: Spec) {
    && Writable(last) && last.footer.Final? && NoDelimiter(EncodeTable(last))
    && forall k :: 0 <= k < |specs| ==> Writable(specs[k]) && !specs[k].footer.Final? && Clean(EncodeTable(specs[k]))
  }

  function EncodeAll(specs: seq<Spec>): seq<byte>
    requires forall k :: 0 <= k < |specs| ==> Writable(specs[k])
  {
    if specs == [] then [] else EncodeTable(specs[0]) + EncodeAll(specs[1..])
  }

  function EncodePayload(head: seq<byte>, specs: seq<Spec>, last: Spec): seq<byte>
    requires Writable(last) && forall k :: 0 <= k < |specs| ==> Writable(specs[k])
  {
    head + EncodeAll(specs) + EncodeTable(last)
  }

  /** Writes the header, the delimited tables and the final one. */
  method WritePayload(head: seq<byte>, specs: seq<Spec>, last: Spec) returns (bytes: seq<byte>)
    requires Writable(last) && forall k :: 0 <= k < |specs| ==> Writable(specs[k])
    ensures bytes == EncodePayload(head, specs, last)
  {
    hide EncodeTable, Writable;
    bytes := head;
    for k := 0 to |specs|
      invariant bytes + EncodeAll(specs[k..]) == head + EncodeAll(specs)
    {
      assert specs[k..][1..] == specs[k + 1..];
      ghost var was := bytes;
      bytes := AppendTable(bytes, specs[k]);
      assert was + EncodeAll(specs[k..]) == was + EncodeTable(specs[k]) + EncodeAll(specs[k + 1..]);
    }
    assert bytes + EncodeAll(specs[|specs|..]) == bytes;
    bytes := AppendTable(bytes, last);
  }

  function Ends(start: nat, specs: seq<Spec>): seq<nat>
    requires forall k :: 0 <= k < |specs| ==> Writable(specs[k])
    decreases |specs|
  {
    if specs == [] then [] else [start + |EncodeTable(specs[0])|] + Ends(start + |EncodeTable(specs[0])|, specs[1..])
  }

  ghost function DescribedAll(specs: seq<Spec>, last: Spec, start: nat, ordinal: nat): seq<Table>
    requires Writable(last) && forall k :: 0 <= k < |specs| ==> Writable(specs[k])
    decreases |specs|
  {
    if specs == [] then [Described(last, start, ordinal)]
    else
      [Described(specs[0], start, ordinal)]
      + DescribedAll(specs[1..], last, start + |EncodeTable(specs[0])|, ordinal + 1)
  }

  lemma SliceInside(before: seq<byte>, section: seq<byte>, after: seq<byte>, k: nat)
    requires k + 4 <= |section|
    ensures (before + section + after)[|before| + k..|before| + k + 4] == section[k..k + 4]
  {
  }

  /** The scan walks over a clean section and stops at its end. */
  lemma {:induction false} ScanSection(bytes: seq<byte>, before: seq<byte>, section: seq<byte>, after: seq<byte>,
                                       k: nat)
    requires bytes == before + section + after && Clean(section) && k <= |section| - 4
    ensures Scan(bytes, |before| + k) == [|before| + |section|] + Scan(bytes, |before| + |section|)
    decreases |section| - k
  {
    SliceInside(before, section, after, k);
    assert k < |section| - 4 ==> !DelimiterAt(section, k);
    if k < |section| - 4 {
      ScanSection(bytes, before, section, after, k + 1);
    } else {
      assert section[k..k + 4] == section[|section| - 4..];
    }
  }

  lemma {:induction false} ScanNothing(bytes: seq<byte>, before: seq<byte>, section: seq<byte>, k: nat)
    requires bytes == before + section && NoDelimiter(section) && k <= |section|
    ensures Scan(bytes, |before| + k) == []
    decreases |section| - k
  {
    var at := |before| + k;
    if at + 4 <= |bytes| {
      assert bytes[at..at + 4] == section[k..k + 4] && !DelimiterAt(section, k);
      ScanNothing(bytes, before, section, k + 1);
    }
  }

  lemma {:induction false} ScanFindsEnds(bytes: seq<byte>, before: seq<byte>, specs: seq<Spec>, last: Spec)
    requires WritableAll(specs, last) && bytes == before + EncodeAll(specs) + EncodeTable(last)
    ensures Scan(bytes, |before|) == Ends(|before|, specs)
    decreases |specs|
  {
    hide EncodeTable, Scan, Writable, Clean, NoDelimiter;
    if specs == [] {
      assert bytes == before + EncodeTable(last);
      ScanNothing(bytes, before, EncodeTable(last), 0);
    } else {
      var section, after := EncodeTable(specs[0]), EncodeAll(specs[1..]) + EncodeTable(last);
      assert bytes == before + section + after;
      CleanLength(section);
      ScanSection(bytes, before, section, after, 0);
      assert bytes == (before + section) + EncodeAll(specs[1..]) + EncodeTable(last);
      RestWritable(specs, last);
      ScanFindsEnds(bytes, before + section, specs[1..], last);
    }
  }

  lemma CleanLength(section: seq<byte>)
    requires Clean(section)
    ensures |section| >= 4
  {
  }

  lemma RestWritable(specs: seq<Spec>, last: Spec)
    requires specs != [] && WritableAll(specs, last)
    ensures WritableAll(specs[1..], last) && Writable(specs[0]) && !specs[0].footer.Final?
  {
    hide Writable, Clean, NoDelimiter;
  }

  lemma {:induction false} EndsAscend(bytes: seq<byte>, before: seq<byte>, specs: seq<Spec>, last: Spec)
    requires WritableAll(specs, last) && bytes == before + EncodeAll(specs) + EncodeTable(last)
    ensures Ascending(bytes, |before|, Ends(|before|, specs))
    decreases |specs|
  {
    hide EncodeTable, Writable, Clean, NoDelimiter;
    if specs != [] {
      var section := EncodeTable(specs[0]);
      assert bytes == (before + section) + EncodeAll(specs[1..]) + EncodeTable(last);
      RestWritable(specs, last);
      EndsAscend(bytes, before + section, specs[1..], last);
    }
  }

  lemma {:induction false} TablesReadBack(bytes: seq<byte>, before: seq<byte>, specs: seq<Spec>, last: Spec,
                                          ordinal: nat)
    requires WritableAll(specs, last) && bytes == before + EncodeAll(specs) + EncodeTable(last)
    requires Ascending(bytes, |before|, Ends(|before|, specs))
    ensures ParseAll(bytes, |before|, Ends(|before|, specs), ordinal)
              == Some(DescribedAll(specs, last, |before|, ordinal))
    decreases |specs|
  {
    hide EncodeTable, Writable, Clean, NoDelimiter, ParseDelimited, ParseTable, Described, EndsFinally;
    hide Ascending;
    if specs == [] {
      assert bytes[|before|..] == EncodeTable(last);
      TableReadsBack(last, |before|, ordinal);
      FinalIsRecognised(last);
    } else {
      var section, start := EncodeTable(specs[0]), |before| + |EncodeTable(specs[0])|;
      assert bytes == (before + section) + EncodeAll(specs[1..]) + EncodeTable(last);
      assert bytes[|before|..start] == section;
      RestWritable(specs, last);
      EndsAscend(bytes, before + section, specs[1..], last);
      TablesReadBack(bytes, before + section, specs[1..], last, ordinal + 1);
      DelimitedReadsBack(specs[0], |before|, ordinal);
      assert Ends(|before|, specs)[1..] == Ends(start, specs[1..]);
    }
  }

  lemma FinalIsRecognised(spec: Spec)
    requires Writable(spec) && spec.footer.Final?
    ensures EndsFinally(EncodeTable(spec))
  {
    hide EncodeRows, EncodeHeader;
    var section := EncodeTable(spec);
    assert section[|section| - 4..] == FOOTER_MAGIC;
  }

  /** Inspecting a written payload recovers every table. */
  lemma PayloadReadsBack(head: seq<byte>, specs: seq<Spec>, last: Spec)
    requires Clean(head) && WritableAll(specs, last)
    ensures InspectTables(EncodePayload(head, specs, last)) == Some(DescribedAll(specs, last, |head|, 0))
  {
    hide EncodeTable, Writable, NoDelimiter, EncodeAll, Scan, ParseAll, Ends, DescribedAll, Ascending, Clean;
    var bytes := EncodePayload(head, specs, last);
    ScanPayload(head, specs, last);
    EndsAscend(bytes, head, specs, last);
    TablesReadBack(bytes, head, specs, last, 0);
    var ends := Scan(bytes, 0);
    assert ends[0] == |head| && ends[1..] == Ends(|head|, specs);
  }

  lemma ScanPayload(head: seq<byte>, specs: seq<Spec>, last: Spec)
    requires Clean(head) && WritableAll(specs, last)
    ensures Scan(EncodePayload(head, specs, last), 0) == [|head|] + Ends(|head|, specs)
  {
    hide EncodeTable, Writable, NoDelimiter, EncodeAll, Scan, Ends;
    var bytes := EncodePayload(head, specs, last);
    var after := EncodeAll(specs) + EncodeTable(last);
    assert bytes == [] + head + after;
    ScanSection(bytes, [], head, after, 0);
    ScanFindsEnds(bytes, head, specs, last);
  }
}
