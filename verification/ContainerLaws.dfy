/** What an accepted payload looks like byte by byte, told without the parser's own functions. */
module ContainerLaws {
  import opened Container
  import opened Wrappers

  /** A little-endian 32-bit word. */
  predicate IsWord(bytes: seq<byte>, at: nat, value: nat) {
    && at + 4 <= |bytes|
    && value == bytes[at] as int + 256 * (bytes[at + 1] as int
                                   + 256 * (bytes[at + 2] as int + 256 * (bytes[at + 3] as int)))
  }

  /** The first byte of row `r` of a section has bit 3 clear. */
  predicate IsShownRow(section: seq<byte>, at: nat, size: nat, r: nat) {
    at + r * size < |section| && section[at + r * size] % 16 < 8
  }

  ghost function ShownRows(section: seq<byte>, at: nat, size: nat, rows: nat): set<nat> {
    set r: nat | r < rows && IsShownRow(section, at, size, r)
  }

  /** The footer's marks at the end of the section; only the last section ends with the footer magic. */
  predicate HasFooter(section: seq<byte>, footer: Footer) {
    var n := |section|;
    match footer
    case Plain => n >= 5 && section[n - 5] == 0 && section[n - 4..] == [0x66, 0xc0, 0xce, 0xdb]
    case Keyed(key) =>
      n >= 9 && section[n - 9] == 0 && IsWord(section, n - 8, key) && section[n - 4..] == [0x66, 0xc0, 0xce, 0xdb]
    case Connected(key) =>
      && n >= 13 && section[n - 13] == 0 && section[n - 12..n - 8] == [0x4f, 0x61, 0xbc, 0x00]
      && IsWord(section, n - 8, key) && section[n - 4..] == [0x66, 0xc0, 0xce, 0xdb]
    case Final => n >= 5 && section[n - 5] == 0 && section[n - 4..] == [0x4f, 0x61, 0xbc, 0x00]
  }

  /** Bytes of the footer of a section, behind its rows. */
  function FooterBytes(footer: Footer): nat {
    if footer.Connected? then 13 else if footer.Keyed? then 9 else 5
  }

  /**
   The table describes the section at the offset: two words, one word for each descriptor,
   rows of a marker byte, the tuple and two more words, and the footer.
   */
  ghost predicate Describes(table: Table, section: seq<byte>, offset: nat) {
    var header := 8 + 4 * |table.descriptors|;
    && IsWord(section, 0, table.tupleSize) && IsWord(section, 4, |table.descriptors|)
    && (forall k: nat :: k < |table.descriptors| ==> DescribesField(table.descriptors, section, k))
    && table.recordOffset == offset + header
    && |section| == header + table.rowCount * (table.tupleSize + 9) + FooterBytes(table.footer)
    && table.visible == |ShownRows(section, header, table.tupleSize + 9, table.rowCount)|
    && table.invisible == table.rowCount - table.visible
    && HasFooter(section, table.footer)
  }

  ghost predicate DescribesField(descriptors: seq<nat>, section: seq<byte>, k: nat)
    requires k < |descriptors|
  {
    IsWord(section, 8 + 4 * k, descriptors[k]) && descriptors[k] < 256
  }

  lemma WordIsRead(bytes: seq<byte>, at: nat)
    requires at + 4 <= |bytes|
    ensures IsWord(bytes, at, U32At(bytes, at))
  {
  }

  lemma MarkerBit(marker: byte)
    ensures IsHidden(marker) <==> marker % 16 >= 8
  {
  }

  lemma {:induction false} ShownIsCount(section: seq<byte>, at: nat, size: nat, rows: nat)
    requires size >= 1 && at + rows * size <= |section|
    ensures Shown(section, at, size, rows) == |ShownRows(section, at, size, rows)|
  {
    hide IsHidden, IsShownRow;
    if rows == 0 {
      assert ShownRows(section, at, size, 0) == {};
    } else {
      var last: nat := rows - 1;
      LastRowFits(rows, size);
      ShownIsCount(section, at, size, last);
      OneMoreRow(section, at, size, rows);
    }
  }

  lemma OneMoreRow(section: seq<byte>, at: nat, size: nat, rows: nat)
    requires rows > 0 && at + (rows - 1) * size < |section|
    ensures |ShownRows(section, at, size, rows)| == |ShownRows(section, at, size, rows - 1)|
              + if IsHidden(section[at + (rows - 1) * size]) then 0 else 1
  {
    hide IsHidden;
    var last: nat := rows - 1;
    MarkerBit(section[at + last * size]);
    var before, after := ShownRows(section, at, size, last), ShownRows(section, at, size, rows);
    if IsShownRow(section, at, size, last) {
      assert after == before + {last};
    } else {
      assert after == before;
    }
  }

  /** A section that is read as a table, with a footer that its bytes bear out, is described by it. */
  lemma ParsedIsDescribed(section: seq<byte>, offset: nat, ordinal: nat, footer: Footer)
    requires ParseTable(section, offset, ordinal, footer).Some? && HasFooter(section, footer)
    ensures Describes(ParseTable(section, offset, ordinal, footer).value, section, offset)
  {
    hide U32At, Shown, Descriptors, HasFooter, IsWord, ShownRows;
    var t := ParseTable(section, offset, ordinal, footer).value;
    ExactRows(section, FooterSize(footer));
    WordIsRead(section, 0);
    WordIsRead(section, 4);
    forall k: nat | k < |t.descriptors| ensures DescribesField(t.descriptors, section, k) {
      DescriptorAt(section, |t.descriptors|, k);
      WordIsRead(section, 8 + 4 * k);
    }
    ShownIsCount(section, 8 + 4 * |t.descriptors|, t.tupleSize + 9, t.rowCount);
  }

  lemma CandidatesAreBorneOut(section: seq<byte>)
    ensures forall footer :: footer in Candidates(section) ==> HasFooter(section, footer) && !footer.Final?
  {
    hide U32At, IsWord;
    if |section| >= 8 { WordIsRead(section, |section| - 8); }
  }

  lemma {:induction false} FirstIsDescribed(section: seq<byte>, offset: nat, ordinal: nat, candidates: seq<Footer>)
    requires FirstParsed(section, offset, ordinal, candidates).Some?
    requires forall footer :: footer in candidates ==> HasFooter(section, footer) && !footer.Final?
    ensures var t := FirstParsed(section, offset, ordinal, candidates).value;
            Describes(t, section, offset) && !t.footer.Final? && t.ordinal == ordinal
    decreases |candidates|
  {
    hide HasFooter, Describes, Aligned, Rows, Shown, Descriptors;
    if ParseTable(section, offset, ordinal, candidates[0]).Some? {
      ParsedIsDescribed(section, offset, ordinal, candidates[0]);
    } else {
      FirstIsDescribed(section, offset, ordinal, candidates[1..]);
    }
  }

  /** Where the sections begin, and the end of the payload. */
  function Bounds(bytes: seq<byte>, start: nat, ends: seq<nat>): (bounds: seq<nat>)
    ensures |bounds| == |ends| + 2
  {
    [start] + ends + [|bytes|]
  }

  /** Table `i` describes what lies between bounds `i` and `i + 1`, and ends finally just when it is the last. */
  ghost predicate DescribedBetween(bytes: seq<byte>, bounds: seq<nat>, tables: seq<Table>, i: nat, ordinal: nat)
    requires i < |tables|
  {
    && i + 1 < |bounds| && bounds[i] <= bounds[i + 1] <= |bytes|
    && Describes(tables[i], bytes[bounds[i]..bounds[i + 1]], bounds[i])
    && tables[i].ordinal == ordinal + i && (tables[i].footer.Final? <==> i + 1 == |tables|)
  }

  ghost predicate AllBetween(bytes: seq<byte>, bounds: seq<nat>, tables: seq<Table>, ordinal: nat) {
    forall i: nat :: i < |tables| ==> DescribedBetween(bytes, bounds, tables, i, ordinal)
  }

  lemma {:induction false} AllAreDescribed(bytes: seq<byte>, start: nat, ends: seq<nat>, ordinal: nat)
    requires Ascending(bytes, start, ends) && ParseAll(bytes, start, ends, ordinal).Some?
    ensures var tables := ParseAll(bytes, start, ends, ordinal).value;
      && |tables| == |ends| + 1
      && AllBetween(bytes, Bounds(bytes, start, ends), tables, ordinal)
    decreases |ends|
  {
    hide Describes, HasFooter, ParseTable, Candidates;
    var tables := ParseAll(bytes, start, ends, ordinal).value;
    if ends == [] {
      var trailing := bytes[start..];
      assert bytes[start..|bytes|] == trailing;
      LastIsDescribed(trailing, start, ordinal);
    } else {
      var section, rest := bytes[start..ends[0]], ParseAll(bytes, ends[0], ends[1..], ordinal + 1).value;
      CandidatesAreBorneOut(section);
      FirstIsDescribed(section, start, ordinal, Candidates(section));
      AllAreDescribed(bytes, ends[0], ends[1..], ordinal + 1);
      var first := ParseDelimited(section, start, ordinal).value;
      hide ParseAll, Ascending, ParseDelimited;
      FrontIsDescribed(bytes, start, Bounds(bytes, ends[0], ends[1..]), first, rest, ordinal);
      assert Bounds(bytes, start, ends) == [start] + Bounds(bytes, ends[0], ends[1..]);
    }
  }

  lemma FrontIsDescribed(bytes: seq<byte>, start: nat, bounds: seq<nat>, first: Table, rest: seq<Table>, ordinal: nat)
    requires rest != [] && AllBetween(bytes, bounds, rest, ordinal + 1)
    requires bounds != [] && start <= bounds[0] <= |bytes| && Describes(first, bytes[start..bounds[0]], start)
    requires !first.footer.Final? && first.ordinal == ordinal
    ensures AllBetween(bytes, [start] + bounds, [first] + rest, ordinal)
  {
    hide Describes;
    forall i: nat | i < |rest| + 1 ensures DescribedBetween(bytes, [start] + bounds, [first] + rest, i, ordinal) {
      if i > 0 {
        var j: nat := i - 1;
        assert DescribedBetween(bytes, bounds, rest, j, ordinal + 1);
      }
    }
  }

  lemma LastIsDescribed(trailing: seq<byte>, offset: nat, ordinal: nat)
    requires EndsFinally(trailing) && ParseTable(trailing, offset, ordinal, Final).Some?
    ensures var t := ParseTable(trailing, offset, ordinal, Final).value;
            Describes(t, trailing, offset) && t.footer.Final? && t.ordinal == ordinal
  {
    hide Describes, Aligned, Rows, Shown, Descriptors;
    ParsedIsDescribed(trailing, offset, ordinal, Final);
  }

  lemma {:induction false} EndsAreDelimiters(bytes: seq<byte>, offset: nat)
    ensures forall k :: 0 <= k < |Scan(bytes, offset)| ==>
              var end := Scan(bytes, offset)[k]; 4 <= end <= |bytes| && bytes[end - 4..end] == [0x66, 0xc0, 0xce, 0xdb]
    decreases |bytes| - offset
  {
    if offset + 4 <= |bytes| {
      if bytes[offset..offset + 4] == TABLE_END {
        EndsAreDelimiters(bytes, offset + 4);
      } else {
        EndsAreDelimiters(bytes, offset + 1);
      }
    }
  }

  /**
   The tables of an accepted payload describe its bytes: section after section from the end of
   the first delimiter to the end of the payload, each beginning behind a delimiter, each with
   its words, descriptors, rows, shown rows and footer where the bytes have them.
   */
  lemma AcceptedPayloadIsDescribed(bytes: seq<byte>, i: nat)
    requires InspectTables(bytes).Some? && i < |InspectTables(bytes).value|
    ensures Scan(bytes, 0) != []
    ensures var tables, bounds := InspectTables(bytes).value, Scan(bytes, 0) + [|bytes|];
      && |bounds| == |tables| + 1 && DescribedBetween(bytes, bounds, tables, i, 0)
      && bounds[i] >= 4 && bytes[bounds[i] - 4..bounds[i]] == [0x66, 0xc0, 0xce, 0xdb]
  {
    hide Scan, ParseAll, DescribedBetween;
    var ends := Scan(bytes, 0);
    EndsAreDelimiters(bytes, 0);
    AllAreDescribed(bytes, ends[0], ends[1..], 0);
    assert Bounds(bytes, ends[0], ends[1..]) == ends + [|bytes|];
  }
}
