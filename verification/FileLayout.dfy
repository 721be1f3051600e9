/** Where each value stands in an index file: byte offsets and widths of every field, and what makes a file acceptable. */
module FileLayout {
  import opened Options
  import opened LittleEndian
  import opened Regions
  import opened FileFormat
  import opened IndexContainer

  /** The `width` bytes at `at` hold `v`, lowest byte first. */
  predicate Field(bytes: seq<Byte>, at: nat, width: nat, v: nat) {
    at + width <= |bytes| && GetLe(bytes[at..at + width]) == v
  }

  lemma {:induction false} OffsetNext(widths: seq<nat>, i: nat)
    requires i < |widths|
    ensures Sum(widths[..i + 1]) == Sum(widths[..i]) + widths[i]
  {
    assert widths[..i + 1] == widths[..i] + [widths[i]];
    SumAppend(widths[..i], [widths[i]]);
    SumOf(widths[i], []);
    assert [widths[i]] + [] == [widths[i]];
  }

  lemma {:induction false} OffsetInRange(widths: seq<nat>, i: nat)
    requires i <= |widths|
    ensures Sum(widths[..i]) <= Sum(widths)
  {
    assert widths == widths[..i] + widths[i..];
    SumAppend(widths[..i], widths[i..]);
  }

  /** Value `i` of a record is read at the sum of the widths before it. */
  lemma {:induction false} UnpackAt(bytes: seq<Byte>, widths: seq<nat>, i: nat)
    requires |bytes| == Sum(widths) && i < |widths|
    ensures Sum(widths[..i]) + widths[i] <= |bytes|
    ensures Unpack(bytes, widths)[i] == GetLe(bytes[Sum(widths[..i])..Sum(widths[..i]) + widths[i]])
  {
    hide GetLe;
    OffsetNext(widths, i);
    OffsetInRange(widths, i + 1);
    if i == 0 {
      assert widths[..0] == [];
    } else {
      UnpackAt(bytes[widths[0]..], widths[1..], i - 1);
      assert widths[..i] == [widths[0]] + widths[1..][..i - 1];
      SumOf(widths[0], widths[1..][..i - 1]);
      var at := Sum(widths[1..][..i - 1]);
      assert bytes[widths[0]..][at..at + widths[i]] == bytes[widths[0] + at..widths[0] + at + widths[i]];
    }
  }

  /** The same, with the offset given. */
  lemma FieldOf(bytes: seq<Byte>, widths: seq<nat>, i: nat, at: nat)
    requires |bytes| == Sum(widths) && i < |widths| && Sum(widths[..i]) == at
    ensures Field(bytes, at, widths[i], Unpack(bytes, widths)[i])
    ensures Sum(widths[..i + 1]) == at + widths[i]
  {
    UnpackAt(bytes, widths, i);
    OffsetNext(widths, i);
  }

  // ----- the header -----

  /** The bytes "VFIDX", carriage return, line feed, and 0x1A. */
  const MAGIC_BYTES: seq<Byte> := [0x56, 0x46, 0x49, 0x44, 0x58, 0x0D, 0x0A, 0x1A]

  lemma MagicValue()
    ensures GetLe(MAGIC_BYTES) == MAGIC
  {
    var b := MAGIC_BYTES;
    assert GetLe(b[8..]) == 0;
    assert b[7..][1..] == b[8..] && GetLe(b[7..]) == 0x1A;
    assert b[6..][1..] == b[7..] && GetLe(b[6..]) == 0x1A0A;
    assert b[5..][1..] == b[6..] && GetLe(b[5..]) == 0x1A0A_0D;
    assert b[4..][1..] == b[5..] && GetLe(b[4..]) == 0x1A0A_0D58;
    assert b[3..][1..] == b[4..] && GetLe(b[3..]) == 0x1A0A_0D58_44;
    assert b[2..][1..] == b[3..] && GetLe(b[2..]) == 0x1A0A_0D58_4449;
    assert b[1..][1..] == b[2..] && GetLe(b[1..]) == 0x1A0A_0D58_4449_46;
  }

  lemma MagicIs(bytes: seq<Byte>)
    requires |bytes| == 8
    ensures GetLe(bytes) == MAGIC <==> bytes == MAGIC_BYTES
  {
    hide GetLe, PutLe;
    MagicValue();
    PutGet(bytes);
    PutGet(MAGIC_BYTES);
  }

  /** The 64 bytes of a header, field by field. */
  ghost predicate HeaderAt(b: seq<Byte>, crc: Checksum, h: Header) {
    && |b| == 64 && b[..8] == MAGIC_BYTES && Field(b, 8, 2, 1) && Field(b, 10, 2, h.minor)
    && Field(b, 12, 4, 0x0102_0304) && Field(b, 16, 8, h.flags) && Field(b, 24, 8, h.fileSize)
    && Field(b, 32, 8, h.tableOffset) && Field(b, 40, 4, h.sectionCount) && Field(b, 44, 4, h.tableCrc)
    && Field(b, 48, 8, 0) && Field(b, 56, 4, crc(b[..56])) && Field(b, 60, 4, 0)
  }

  ghost predicate HeaderValues(b: seq<Byte>, f: seq<nat>) {
    && |f| == 10 && Field(b, 0, 8, f[0]) && Field(b, 8, 2, f[1]) && Field(b, 10, 2, f[2]) && Field(b, 12, 4, f[3])
    && Field(b, 16, 8, f[4]) && Field(b, 24, 8, f[5]) && Field(b, 32, 8, f[6]) && Field(b, 40, 4, f[7])
    && Field(b, 44, 4, f[8]) && Field(b, 48, 8, f[9])
  }

  lemma HeaderValuesRead(b: seq<Byte>)
    requires |b| == CRC_COVERAGE
    ensures |b| == Sum(HeaderWidths()) && HeaderValues(b, Unpack(b, HeaderWidths()))
  {
    hide Unpack, Sum, Field;
    HeaderSize();
    var w := HeaderWidths();
    NoOffset(w);
    FieldOf(b, w, 0, 0); FieldOf(b, w, 1, 8); FieldOf(b, w, 2, 10); FieldOf(b, w, 3, 12); FieldOf(b, w, 4, 16);
    FieldOf(b, w, 5, 24); FieldOf(b, w, 6, 32); FieldOf(b, w, 7, 40); FieldOf(b, w, 8, 44); FieldOf(b, w, 9, 48);
  }

  lemma NoOffset(widths: seq<nat>)
    ensures Sum(widths[..0]) == 0
  {
  }

  lemma FieldInFront(b: seq<Byte>, n: nat, at: nat, width: nat, v: nat)
    requires at + width <= n <= |b|
    ensures Field(b[..n], at, width, v) <==> Field(b, at, width, v)
  {
    assert b[..n][at..at + width] == b[at..at + width];
  }

  lemma HeaderValuesInFront(b: seq<Byte>, f: seq<nat>)
    requires |b| == HEADER_SIZE
    ensures HeaderValues(b[..CRC_COVERAGE], f) <==> HeaderValues(b, f)
  {
    hide Field;
    if |f| == 10 {
      FieldInFront(b, 56, 0, 8, f[0]); FieldInFront(b, 56, 8, 2, f[1]); FieldInFront(b, 56, 10, 2, f[2]);
      FieldInFront(b, 56, 12, 4, f[3]); FieldInFront(b, 56, 16, 8, f[4]); FieldInFront(b, 56, 24, 8, f[5]);
      FieldInFront(b, 56, 32, 8, f[6]); FieldInFront(b, 56, 40, 4, f[7]); FieldInFront(b, 56, 44, 4, f[8]);
      FieldInFront(b, 56, 48, 8, f[9]);
    }
  }

  /** A header is read as `h` exactly when each value of `h` stands at its place. */
  lemma HeaderReads(b: seq<Byte>, crc: Checksum, h: Header)
    requires |b| == HEADER_SIZE
    ensures DecodeHeader(b, crc) == Some(h) <==> HeaderAt(b, crc, h)
  {
    hide Unpack, Sum, GetLe;
    HeaderValuesRead(b[..CRC_COVERAGE]);
    HeaderValuesInFront(b, Unpack(b[..CRC_COVERAGE], HeaderWidths()));
    assert b[0..8] == b[..8];
    MagicIs(b[..8]);
  }

  /** Every header that is written has its values in these places. */
  lemma HeaderLayout(h: Header, crc: Checksum)
    requires HeaderFits(h) && Is32Bit(crc, Pack(HeaderFields(h), HeaderWidths()))
    ensures HeaderAt(EncodeHeader(h, crc), crc, h)
  {
    hide EncodeHeader, DecodeHeader, HeaderFits, HeaderAt, Pack;
    HeaderRoundTrip(h, crc);
    HeaderReads(EncodeHeader(h, crc), crc, h);
  }

  // ----- section entries -----

  ghost predicate EntryStands(b: seq<Byte>, e: Entry) {
    && |b| == 32 && Field(b, 0, 4, e.kind) && Field(b, 4, 4, e.flags) && Field(b, 8, 8, e.offset)
    && Field(b, 16, 8, e.size) && Field(b, 24, 4, e.crc) && Field(b, 28, 4, 0)
  }

  lemma EntryReads(b: seq<Byte>, e: Entry)
    requires |b| == ENTRY_SIZE
    ensures DecodeEntry(b) == Some(e) <==> EntryStands(b, e)
  {
    hide Unpack, Sum, GetLe;
    EntrySize();
    var w := EntryWidths();
    NoOffset(w);
    FieldOf(b, w, 0, 0); FieldOf(b, w, 1, 4); FieldOf(b, w, 2, 8); FieldOf(b, w, 3, 16); FieldOf(b, w, 4, 24);
    FieldOf(b, w, 5, 28);
  }

  lemma EntryLayout(e: Entry)
    requires EntryFits(e)
    ensures EntryStands(EncodeEntry(e), e)
  {
    hide EncodeEntry, DecodeEntry, EntryFits, EntryStands;
    EntryRoundTrip(e);
    EntryReads(EncodeEntry(e), e);
  }

  // ----- metadata -----

  ghost predicate MetadataAt(b: seq<Byte>, m: Metadata) {
    && |b| == 74 + |m.creator| && Field(b, 0, 4, m.dim) && Field(b, 4, 1, m.metric) && Field(b, 5, 1, m.indexType)
    && Field(b, 6, 1, m.normalize) && Field(b, 7, 1, 0) && Field(b, 8, 8, m.nodeCount) && Field(b, 16, 8, m.liveCount)
    && Field(b, 24, 4, m.m) && Field(b, 28, 4, m.m0) && Field(b, 32, 4, m.efConstruction) && Field(b, 36, 4, m.efSearch)
    && Field(b, 40, 1, m.maxLevelCap) && Field(b, 41, 1, m.maxLevel) && Field(b, 42, 2, 0) && Field(b, 44, 4, m.entryPoint)
    && Field(b, 48, 8, m.seed) && Field(b, 56, 8, 0) && Field(b, 64, 2, |m.creator|) && |m.creator| <= 256
    && b[66..66 + |m.creator|] == m.creator && Field(b, 66 + |m.creator|, 8, m.created)
  }

  ghost predicate MetaValues(b: seq<Byte>, f: seq<nat>) {
    && |f| == 18 && Field(b, 0, 4, f[0]) && Field(b, 4, 1, f[1]) && Field(b, 5, 1, f[2]) && Field(b, 6, 1, f[3])
    && Field(b, 7, 1, f[4]) && Field(b, 8, 8, f[5]) && Field(b, 16, 8, f[6]) && Field(b, 24, 4, f[7])
    && Field(b, 28, 4, f[8]) && Field(b, 32, 4, f[9]) && Field(b, 36, 4, f[10]) && Field(b, 40, 1, f[11])
    && Field(b, 41, 1, f[12]) && Field(b, 42, 2, f[13]) && Field(b, 44, 4, f[14]) && Field(b, 48, 8, f[15])
    && Field(b, 56, 8, f[16]) && Field(b, 64, 2, f[17])
  }

  lemma MetaValuesRead(b: seq<Byte>)
    requires |b| == META_FIXED
    ensures |b| == Sum(MetaWidths()) && MetaValues(b, Unpack(b, MetaWidths()))
  {
    hide Unpack, Sum, Field;
    MetaSize();
    var w := MetaWidths();
    NoOffset(w);
    FieldOf(b, w, 0, 0); FieldOf(b, w, 1, 4); FieldOf(b, w, 2, 5); FieldOf(b, w, 3, 6); FieldOf(b, w, 4, 7);
    FieldOf(b, w, 5, 8); FieldOf(b, w, 6, 16); FieldOf(b, w, 7, 24); FieldOf(b, w, 8, 28); FieldOf(b, w, 9, 32);
    FieldOf(b, w, 10, 36); FieldOf(b, w, 11, 40); FieldOf(b, w, 12, 41); FieldOf(b, w, 13, 42); FieldOf(b, w, 14, 44);
    FieldOf(b, w, 15, 48); FieldOf(b, w, 16, 56); FieldOf(b, w, 17, 64);
  }

  lemma MetaValuesInFront(b: seq<Byte>, f: seq<nat>)
    requires |b| >= META_FIXED && MetaValues(b[..META_FIXED], f)
    ensures MetaValues(b, f)
  {
    hide Field;
    FieldInFront(b, 66, 0, 4, f[0]); FieldInFront(b, 66, 4, 1, f[1]); FieldInFront(b, 66, 5, 1, f[2]);
    FieldInFront(b, 66, 6, 1, f[3]); FieldInFront(b, 66, 7, 1, f[4]); FieldInFront(b, 66, 8, 8, f[5]);
    FieldInFront(b, 66, 16, 8, f[6]); FieldInFront(b, 66, 24, 4, f[7]); FieldInFront(b, 66, 28, 4, f[8]);
    FieldInFront(b, 66, 32, 4, f[9]); FieldInFront(b, 66, 36, 4, f[10]); FieldInFront(b, 66, 40, 1, f[11]);
    FieldInFront(b, 66, 41, 1, f[12]); FieldInFront(b, 66, 42, 2, f[13]); FieldInFront(b, 66, 44, 4, f[14]);
    FieldInFront(b, 66, 48, 8, f[15]); FieldInFront(b, 66, 56, 8, f[16]); FieldInFront(b, 66, 64, 2, f[17]);
  }

  /** Metadata bytes are read as `m` exactly when each value of `m` stands at its place. */
  lemma MetadataReads(b: seq<Byte>, m: Metadata)
    ensures DecodeMetadata(b) == Some(m) <==> MetadataAt(b, m)
  {
    hide Unpack, Sum, GetLe;
    if |b| >= META_FIXED {
      MetaSize();
      var f := Unpack(b[..META_FIXED], MetaWidths());
      MetaValuesRead(b[..META_FIXED]);
      MetaValuesInFront(b, f);
      if |b| == 74 + f[17] {
        assert b[66 + f[17]..] == b[66 + f[17]..66 + f[17] + 8];
      }
    }
  }

  lemma MetadataLayout(m: Metadata)
    requires MetaFits(m)
    ensures MetadataAt(EncodeMetadata(m), m)
  {
    hide EncodeMetadata, DecodeMetadata, MetaFits, MetadataAt;
    MetadataRoundTrip(m);
    MetadataReads(EncodeMetadata(m), m);
  }

  // ----- whole files -----

  /** The bytes from `lo` to `hi` and those of `e` do not overlap. */
  predicate ClearOf(lo: nat, hi: nat, e: Entry) {
    hi <= e.offset || e.offset + e.size <= lo
  }

  /** A section within the file, aligned, of a kind that is known or may be skipped. */
  predicate Placed(file: seq<Byte>, e: Entry) {
    && 64 <= e.offset && e.offset % 8 == 0 && e.offset + e.size <= |file|
    && (e.flags == 0 || e.flags == 1) && (1 <= e.kind <= 8 || e.flags == 1)
  }

  predicate InSection(es: seq<Entry>, x: nat) {
    exists e <- es :: e.offset <= x < e.offset + e.size
  }

  /** What a reader asks of a file before it looks into its sections, byte by byte. */
  ghost predicate WellPlaced(file: seq<Byte>, crc: Checksum, p: ParsedFile) {
    var t, n := p.header.tableOffset, |p.entries|;
    && |file| >= 64 && HeaderAt(file[..64], crc, p.header)
    && p.header.fileSize == |file| && p.header.flags < 8 && p.header.sectionCount == n && 1 <= n <= 64
    && 64 <= t && t % 8 == 0 && t + 32 * n <= |file| && crc(file[t..t + 32 * n]) == p.header.tableCrc
    && (forall i: nat | i < n :: EntryStands(file[t + 32 * i..t + 32 * i + 32], p.entries[i]))
    && (forall e <- p.entries :: Placed(file, e)) && AllClear(p)
    && (forall i: nat, j: nat | i < j < n && 1 <= p.entries[i].kind <= 8 :: p.entries[i].kind != p.entries[j].kind)
    && (forall x: nat | 64 <= x < |file| && !(t <= x < t + 32 * n) && !InSection(p.entries, x) :: file[x] == 0)
  }

  lemma SliceOfSlice(file: seq<Byte>, t: nat, size: nat, lo: nat, hi: nat)
    requires lo <= hi <= size && t + size <= |file|
    ensures file[t..t + size][lo..hi] == file[t + lo..t + hi]
  {
    var part := file[t..t + size];
    forall x: nat | x < hi - lo
      ensures part[lo..hi][x] == file[t + lo..t + hi][x]
    {
      assert part[lo..hi][x] == part[lo + x] == file[t + lo + x];
    }
  }

  lemma TableReads(file: seq<Byte>, h: Header, es: seq<Entry>)
    requires HeaderOk(file, h) && |es| == h.sectionCount
    ensures TableDecodes(TableOf(file, h), es) <==>
              forall i: nat | i < |es| :: EntryStands(file[h.tableOffset + 32 * i..h.tableOffset + 32 * i + 32], es[i])
  {
    hide DecodeEntry, EntryStands;
    var t, table := h.tableOffset, TableOf(file, h);
    forall i: nat | i < |es|
      ensures table[ENTRY_SIZE * i..ENTRY_SIZE * i + ENTRY_SIZE] == file[t + 32 * i..t + 32 * i + 32]
      ensures EntryAt(table, i) == Some(es[i]) <==> EntryStands(file[t + 32 * i..t + 32 * i + 32], es[i])
    {
      SliceOfSlice(file, t, ENTRY_SIZE * h.sectionCount, ENTRY_SIZE * i, ENTRY_SIZE * i + ENTRY_SIZE);
      EntryReads(file[t + 32 * i..t + 32 * i + 32], es[i]);
    }
  }

  lemma PlacedIff(file: seq<Byte>, es: seq<Entry>)
    ensures EntriesOk(file, es) <==> forall e <- es :: Placed(file, e)
  {
    forall i: nat | i < |es|
      ensures EntryOk(file, es[i]) <==> Placed(file, es[i])
    {
    }
  }

  /** No two sections overlap, and none overlaps the table. */
  predicate AllClear(p: ParsedFile) {
    var t, n := p.header.tableOffset, |p.entries|;
    && (forall e <- p.entries :: ClearOf(t, t + 32 * n, e))
    && forall i: nat, j: nat | i < j < n ::
         ClearOf(p.entries[i].offset, p.entries[i].offset + p.entries[i].size, p.entries[j])
  }

  lemma RegionAt(p: ParsedFile, i: nat)
    requires i <= |p.entries| + 1 && |p.entries| == p.header.sectionCount
    ensures |RegionsOf(p)| == |p.entries| + 2
    ensures RegionsOf(p)[i] == if i == 0 then Region(0, 64) else if i <= |p.entries| then EntryRegion(p.entries[i - 1])
                               else Region(p.header.tableOffset, p.header.tableOffset + 32 * |p.entries|)
  {
  }

  lemma ApartIsClear(p: ParsedFile)
    requires |p.entries| == p.header.sectionCount && AllApart(RegionsOf(p))
    ensures AllClear(p)
  {
    hide RegionsOf;
    var rs, n := RegionsOf(p), |p.entries|;
    RegionAt(p, n + 1);
    forall i: nat | i < n
      ensures ClearOf(p.header.tableOffset, p.header.tableOffset + 32 * n, p.entries[i])
    {
      RegionAt(p, i + 1);
      assert Apart(rs[i + 1], rs[n + 1]);
    }
    forall i: nat, j: nat | i < j < n
      ensures ClearOf(p.entries[i].offset, p.entries[i].offset + p.entries[i].size, p.entries[j])
    {
      RegionAt(p, i + 1);
      RegionAt(p, j + 1);
      assert Apart(rs[i + 1], rs[j + 1]);
    }
  }

  lemma ClearIsApart(p: ParsedFile)
    requires |p.entries| == p.header.sectionCount && 64 <= p.header.tableOffset && AllClear(p)
    requires forall e <- p.entries :: 64 <= e.offset
    ensures AllApart(RegionsOf(p))
  {
    hide RegionsOf;
    var rs, n := RegionsOf(p), |p.entries|;
    RegionAt(p, 0);
    forall i: nat, j: nat | i < j < |rs|
      ensures Apart(rs[i], rs[j])
    {
      RegionAt(p, i);
      RegionAt(p, j);
      if j <= n { assert p.entries[j - 1] in p.entries; }
      if 0 < i { assert p.entries[i - 1] in p.entries; }
    }
  }

  lemma CoveredIff(p: ParsedFile, x: nat)
    requires |p.entries| == p.header.sectionCount
    ensures Covered(RegionsOf(p), x) <==>
              x < 64 || InSection(p.entries, x) || p.header.tableOffset <= x < p.header.tableOffset + 32 * |p.entries|
  {
    var rs, n := RegionsOf(p), |p.entries|;
    assert rs[0] == Region(0, HEADER_SIZE) && rs[n + 1] == TableRegion(p.header);
    if Covered(rs, x) {
      var k: nat :| k < |rs| && Covers(rs[k], x);
      if 0 < k <= n {
        assert rs[k] == EntryRegion(p.entries[k - 1]) && p.entries[k - 1] in p.entries;
      }
    }
    if InSection(p.entries, x) {
      var k: nat :| k < n && p.entries[k].offset <= x < p.entries[k].offset + p.entries[k].size;
      assert rs[k + 1] == EntryRegion(p.entries[k]) && rs[k + 1] in rs && Covers(rs[k + 1], x);
    }
    if x < 64 { assert rs[0] in rs && Covers(rs[0], x); }
    if TableRegion(p.header).begin <= x < TableRegion(p.header).end { assert rs[n + 1] in rs && Covers(rs[n + 1], x); }
  }

  /** The reader's first two steps accept exactly the well-placed files. */
  lemma ParsedIff(file: seq<Byte>, crc: Checksum, p: ParsedFile)
    ensures IsParsed(file, crc, p) <==> WellPlaced(file, crc, p)
  {
    hide DecodeHeader, TableDecodes, HeaderAt, EntryStands, EntriesOk, Placed, AllApart, RegionsOf, AllClear, InSection;
    hide Covered;
    if |file| >= HEADER_SIZE {
      HeaderReads(file[..HEADER_SIZE], crc, p.header);
      if HeaderOk(file, p.header) && |p.entries| == p.header.sectionCount {
        TableReads(file, p.header, p.entries);
        PlacedIff(file, p.entries);
        if forall e <- p.entries :: Placed(file, e) {
          PlacedPastHeader(file, p.entries);
          if AllClear(p) { ClearIsApart(p); }
          if AllApart(RegionsOf(p)) { ApartIsClear(p); }
        }
        forall x: nat
          ensures Covered(RegionsOf(p), x) <==>
                    x < 64 || InSection(p.entries, x) || p.header.tableOffset <= x < p.header.tableOffset + 32 * |p.entries|
        {
          CoveredIff(p, x);
        }
      }
    }
  }

  lemma PlacedPastHeader(file: seq<Byte>, es: seq<Entry>)
    requires forall e <- es :: Placed(file, e)
    ensures forall e <- es :: HEADER_SIZE <= e.offset
  {
  }
}
