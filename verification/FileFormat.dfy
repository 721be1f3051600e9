/** The fixed records of an index file: header, section entries and metadata, as fields of little-endian integers. */
module FileFormat {
  import opened Options
  import opened LittleEndian

  // ----- records as lists of fields -----

  function Sum(widths: seq<nat>): nat {
    if widths == [] then 0 else widths[0] + Sum(widths[1..])
  }

  /** Every value fits in its field. */
  predicate Fits(values: seq<nat>, widths: seq<nat>) {
    |values| == |widths| && forall i: nat | i < |values| :: values[i] < Power(widths[i])
  }

  function Pack(values: seq<nat>, widths: seq<nat>): (bytes: seq<Byte>)
    requires |values| == |widths|
    ensures |bytes| == Sum(widths)
  {
    if widths == [] then [] else PutLe(values[0], widths[0]) + Pack(values[1..], widths[1..])
  }

  function Unpack(bytes: seq<Byte>, widths: seq<nat>): (values: seq<nat>)
    requires |bytes| == Sum(widths)
    ensures |values| == |widths|
  {
    if widths == [] then [] else [GetLe(bytes[..widths[0]])] + Unpack(bytes[widths[0]..], widths[1..])
  }

  lemma {:induction false} UnpackPack(values: seq<nat>, widths: seq<nat>)
    requires Fits(values, widths)
    ensures Unpack(Pack(values, widths), widths) == values
  {
    if widths != [] {
      var first, rest := PutLe(values[0], widths[0]), Pack(values[1..], widths[1..]);
      var bytes := Pack(values, widths);
      assert bytes[..widths[0]] == first && bytes[widths[0]..] == rest;
      GetPut(values[0], widths[0]);
      assert forall i: nat | i < |values| - 1 :: values[1..][i] < Power(widths[1..][i]);
      UnpackPack(values[1..], widths[1..]);
    }
  }

  lemma {:induction false} PackUnpack(bytes: seq<Byte>, widths: seq<nat>)
    requires |bytes| == Sum(widths)
    ensures Fits(Unpack(bytes, widths), widths) && Pack(Unpack(bytes, widths), widths) == bytes
  {
    hide Power, PutLe, GetLe;
    if widths != [] {
      var values := Unpack(bytes, widths);
      var first, rest := bytes[..widths[0]], bytes[widths[0]..];
      PutGet(first);
      PackUnpack(rest, widths[1..]);
      assert values[1..] == Unpack(rest, widths[1..]);
      forall i: nat | i < |values|
        ensures values[i] < Power(widths[i])
      {
        if i > 0 {
          assert values[1..][i - 1] < Power(widths[1..][i - 1]);
        }
      }
      assert bytes == first + rest;
    }
  }

  // ----- the header -----

  /** The eight magic bytes "VFIDX\r\n\x1A", read as one integer. */
  const MAGIC: nat := 0x1A0A_0D58_4449_4656
  const ENDIAN_TAG: nat := 0x0102_0304
  const FORMAT_MAJOR: nat := 1
  const FORMAT_MINOR: nat := 0
  const HEADER_SIZE: nat := 64
  const CRC_COVERAGE: nat := 56
  const ENTRY_SIZE: nat := 32
  const MAX_SECTIONS: nat := 64
  const ALIGNMENT: nat := 8
  const VECTOR_ALIGNMENT: nat := 4096
  const MAX_CREATOR: nat := 256
  const KNOWN_FLAGS: nat := 8
  const SIZE_LIMIT: nat := 0x1_0000_0000_0000_0000

  datatype Header = Header(
    minor: nat, flags: nat, fileSize: nat, tableOffset: nat, sectionCount: nat, tableCrc: nat)

  /** magic, major, minor, endian tag, flags, file size, table offset, section count, table checksum, reserved. */
  function HeaderWidths(): seq<nat> {
    [8, 2, 2, 4, 8, 8, 8, 4, 4, 8]
  }

  function HeaderFields(h: Header): seq<nat> {
    [MAGIC, FORMAT_MAJOR, h.minor, ENDIAN_TAG, h.flags, h.fileSize, h.tableOffset, h.sectionCount, h.tableCrc, 0]
  }

  /** A checksum of bytes as a 32-bit number. */
  type Checksum = seq<Byte> -> nat

  predicate Is32Bit(crc: Checksum, bytes: seq<Byte>) {
    crc(bytes) < Power(4)
  }

  lemma HeaderSize()
    ensures Sum(HeaderWidths()) == CRC_COVERAGE
  {
    SumOf(8, [2, 2, 4, 8, 8, 8, 4, 4, 8]);
    SumOf(2, [2, 4, 8, 8, 8, 4, 4, 8]);
    SumOf(2, [4, 8, 8, 8, 4, 4, 8]);
    SumOf(4, [8, 8, 8, 4, 4, 8]);
    SumOf(8, [8, 8, 4, 4, 8]);
    SumOf(8, [8, 4, 4, 8]);
    SumOf(8, [4, 4, 8]);
    SumOf(4, [4, 8]);
    SumOf(4, [8]);
    SumOf(8, []);
  }

  lemma SumOf(w: nat, rest: seq<nat>)
    ensures Sum([w] + rest) == w + Sum(rest)
  {
    assert ([w] + rest)[1..] == rest;
  }

  function EncodeHeader(h: Header, crc: Checksum): seq<Byte> {
    var body := Pack(HeaderFields(h), HeaderWidths());
    body + PutLe(crc(body), 4) + PutLe(0, 4)
  }

  /** The header if every check on it passes: magic, endianness, version, checksum and reserved fields. */
  function DecodeHeader(bytes: seq<Byte>, crc: Checksum): Option<Header>
    requires |bytes| == HEADER_SIZE
  {
    HeaderSize();
    var f := Unpack(bytes[..CRC_COVERAGE], HeaderWidths());
    if f[0] != MAGIC || f[3] != ENDIAN_TAG || f[1] != FORMAT_MAJOR then None
    else if crc(bytes[..CRC_COVERAGE]) != GetLe(bytes[56..60]) then None
    else if f[9] != 0 || GetLe(bytes[60..64]) != 0 then None
    else Some(Header(f[2], f[4], f[5], f[6], f[7], f[8]))
  }

  predicate HeaderFits(h: Header) {
    Fits(HeaderFields(h), HeaderWidths())
  }

  lemma HeaderRoundTrip(h: Header, crc: Checksum)
    requires HeaderFits(h) && Is32Bit(crc, Pack(HeaderFields(h), HeaderWidths()))
    ensures |EncodeHeader(h, crc)| == HEADER_SIZE && DecodeHeader(EncodeHeader(h, crc), crc) == Some(h)
  {
    hide Pack, Unpack, PutLe, GetLe, Power, Sum;
    HeaderSize();
    var body, bytes := Pack(HeaderFields(h), HeaderWidths()), EncodeHeader(h, crc);
    UnpackPack(HeaderFields(h), HeaderWidths());
    GetPut(crc(body), 4);
    GetPut(0, 4);
    assert bytes[..CRC_COVERAGE] == body && bytes[56..60] == PutLe(crc(body), 4) && bytes[60..64] == PutLe(0, 4);
  }

  /** A header that decodes is the encoding of what it decodes to, so a header has one form. */
  lemma HeaderIsCanonical(bytes: seq<Byte>, crc: Checksum)
    requires |bytes| == HEADER_SIZE && DecodeHeader(bytes, crc).Some?
    ensures EncodeHeader(DecodeHeader(bytes, crc).value, crc) == bytes
    ensures HeaderFits(DecodeHeader(bytes, crc).value)
  {
    hide Pack, Unpack, PutLe, GetLe, Power, Sum;
    HeaderSize();
    var body, h := bytes[..CRC_COVERAGE], DecodeHeader(bytes, crc).value;
    var f := Unpack(body, HeaderWidths());
    PackUnpack(body, HeaderWidths());
    assert f == HeaderFields(h);
    PutGet(bytes[56..60]);
    PutGet(bytes[60..64]);
    assert bytes == body + bytes[56..60] + bytes[60..64];
  }

  // ----- section entries -----

  datatype Entry = Entry(kind: nat, flags: nat, offset: nat, size: nat, crc: nat)

  /** type, flags, offset, size, checksum, reserved. */
  function EntryWidths(): seq<nat> {
    [4, 4, 8, 8, 4, 4]
  }

  function EntryFields(e: Entry): seq<nat> {
    [e.kind, e.flags, e.offset, e.size, e.crc, 0]
  }

  predicate EntryFits(e: Entry) {
    Fits(EntryFields(e), EntryWidths())
  }

  lemma EntrySize()
    ensures Sum(EntryWidths()) == ENTRY_SIZE
  {
    SumOf(4, [4, 8, 8, 4, 4]);
    SumOf(4, [8, 8, 4, 4]);
    SumOf(8, [8, 4, 4]);
    SumOf(8, [4, 4]);
    SumOf(4, [4]);
    SumOf(4, []);
  }

  function EncodeEntry(e: Entry): (bytes: seq<Byte>)
    ensures |bytes| == ENTRY_SIZE
  {
    EntrySize();
    Pack(EntryFields(e), EntryWidths())
  }

  function DecodeEntry(bytes: seq<Byte>): Option<Entry>
    requires |bytes| == ENTRY_SIZE
  {
    EntrySize();
    var f := Unpack(bytes, EntryWidths());
    if f[5] != 0 then None else Some(Entry(f[0], f[1], f[2], f[3], f[4]))
  }

  lemma EntryRoundTrip(e: Entry)
    requires EntryFits(e)
    ensures DecodeEntry(EncodeEntry(e)) == Some(e)
  {
    hide Pack, Unpack;
    UnpackPack(EntryFields(e), EntryWidths());
  }

  function EncodeTable(entries: seq<Entry>): (bytes: seq<Byte>)
    ensures |bytes| == ENTRY_SIZE * |entries|
  {
    if entries == [] then [] else EncodeTable(entries[..|entries| - 1]) + EncodeEntry(entries[|entries| - 1])
  }

  /** Entry `i` of a table. */
  function EntryAt(table: seq<Byte>, i: nat): Option<Entry>
    requires ENTRY_SIZE * i + ENTRY_SIZE <= |table|
  {
    DecodeEntry(table[ENTRY_SIZE * i..ENTRY_SIZE * i + ENTRY_SIZE])
  }

  lemma {:induction false} TableRoundTrip(entries: seq<Entry>, i: nat)
    requires i < |entries| && forall k: nat | k < |entries| :: EntryFits(entries[k])
    ensures EntryAt(EncodeTable(entries), i) == Some(entries[i])
  {
    hide EncodeEntry, DecodeEntry, EntryFits;
    var n := |entries| - 1;
    var front, last, all := EncodeTable(entries[..n]), EncodeEntry(entries[n]), EncodeTable(entries);
    if i == n {
      EntryRoundTrip(entries[n]);
      assert all[ENTRY_SIZE * i..ENTRY_SIZE * i + ENTRY_SIZE] == last;
    } else {
      TableRoundTrip(entries[..n], i);
      assert all[ENTRY_SIZE * i..ENTRY_SIZE * i + ENTRY_SIZE] == front[ENTRY_SIZE * i..ENTRY_SIZE * i + ENTRY_SIZE];
    }
  }

  // ----- metadata -----

  datatype Metadata = Metadata(
    dim: nat, metric: nat, indexType: nat, normalize: nat, nodeCount: nat, liveCount: nat,
    m: nat, m0: nat, efConstruction: nat, efSearch: nat, maxLevelCap: nat, maxLevel: nat,
    entryPoint: nat, seed: nat, creator: seq<Byte>, created: nat)

  const META_FIXED: nat := 66

  /** The fields in file order: three of them are padding and zero, the last is the creator's length. */
  function MetaWidths(): seq<nat> {
    [4, 1, 1, 1, 1, 8, 8, 4, 4, 4, 4, 1, 1, 2, 4, 8, 8, 2]
  }

  function MetaFields(m: Metadata): seq<nat> {
    [m.dim, m.metric, m.indexType, m.normalize, 0, m.nodeCount, m.liveCount, m.m, m.m0, m.efConstruction, m.efSearch,
     m.maxLevelCap, m.maxLevel, 0, m.entryPoint, m.seed, 0, |m.creator|]
  }

  lemma {:induction false} SumAppend(a: seq<nat>, b: seq<nat>)
    ensures Sum(a + b) == Sum(a) + Sum(b)
  {
    if a == [] {
      assert a + b == b;
    } else {
      assert (a + b)[1..] == a[1..] + b;
      SumAppend(a[1..], b);
    }
  }

  lemma SixFields(a: nat, b: nat, c: nat, d: nat, e: nat, f: nat)
    ensures Sum([a, b, c, d, e, f]) == a + b + c + d + e + f
  {
    SumOf(a, [b, c, d, e, f]);
    SumOf(b, [c, d, e, f]);
    SumOf(c, [d, e, f]);
    SumOf(d, [e, f]);
    SumOf(e, [f]);
    SumOf(f, []);
  }

  lemma MetaSize()
    ensures Sum(MetaWidths()) == META_FIXED
  {
    var a, b, c := [4, 1, 1, 1, 1, 8], [8, 4, 4, 4, 4, 1], [1, 2, 4, 8, 8, 2];
    SixFields(4, 1, 1, 1, 1, 8);
    SixFields(8, 4, 4, 4, 4, 1);
    SixFields(1, 2, 4, 8, 8, 2);
    SumAppend(a + b, c);
    SumAppend(a, b);
    assert MetaWidths() == a + b + c;
  }

  predicate MetaFits(m: Metadata) {
    Fits(MetaFields(m), MetaWidths()) && |m.creator| <= MAX_CREATOR && m.created < Power(8)
  }

  function EncodeMetadata(m: Metadata): (bytes: seq<Byte>)
    ensures |bytes| == META_FIXED + |m.creator| + 8
  {
    MetaSize();
    Pack(MetaFields(m), MetaWidths()) + m.creator + PutLe(m.created, 8)
  }

  function DecodeMetadata(bytes: seq<Byte>): Option<Metadata> {
    if |bytes| < META_FIXED then None
    else
      MetaSize();
      var f := Unpack(bytes[..META_FIXED], MetaWidths());
      if f[4] != 0 || f[13] != 0 || f[16] != 0 || f[17] > MAX_CREATOR || |bytes| != META_FIXED + f[17] + 8 then None
      else Some(Metadata(f[0], f[1], f[2], f[3], f[5], f[6], f[7], f[8], f[9], f[10], f[11], f[12], f[14], f[15],
                         bytes[META_FIXED..META_FIXED + f[17]], GetLe(bytes[META_FIXED + f[17]..])))
  }

  lemma MetadataRoundTrip(m: Metadata)
    requires MetaFits(m)
    ensures DecodeMetadata(EncodeMetadata(m)) == Some(m)
  {
    hide Pack, Unpack, PutLe, GetLe, Power, Sum;
    MetaSize();
    var fixed, bytes := Pack(MetaFields(m), MetaWidths()), EncodeMetadata(m);
    UnpackPack(MetaFields(m), MetaWidths());
    GetPut(m.created, 8);
    assert bytes[..META_FIXED] == fixed;
    assert bytes[META_FIXED..META_FIXED + |m.creator|] == m.creator;
    assert bytes[META_FIXED + |m.creator|..] == PutLe(m.created, 8);
  }

  /** Accepted metadata bytes are the encoding of what they decode to. */
  lemma MetadataIsCanonical(bytes: seq<Byte>)
    requires DecodeMetadata(bytes).Some?
    ensures EncodeMetadata(DecodeMetadata(bytes).value) == bytes && MetaFits(DecodeMetadata(bytes).value)
  {
    hide Pack, Unpack, PutLe, GetLe, Power, Sum;
    MetaSize();
    var m := DecodeMetadata(bytes).value;
    PackUnpack(bytes[..META_FIXED], MetaWidths());
    assert Unpack(bytes[..META_FIXED], MetaWidths()) == MetaFields(m);
    PutGet(bytes[META_FIXED + |m.creator|..]);
    assert bytes == bytes[..META_FIXED] + m.creator + bytes[META_FIXED + |m.creator|..];
  }
}
