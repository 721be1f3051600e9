/**
  * What a file that the reader accepts must look like: its sections are the ones the writer makes for the state that
  * is read, their bytes have the recorded checksums, and the state can be saved again.
  */
module AcceptedFiles {
  import opened Options
  import opened LittleEndian
  import opened Regions
  import opened FileFormat
  import opened IndexContainer
  import opened IndexFile
  import opened FileLayout
  import Ids = IdMaps
  import Tombstones
  import Codec = GraphCodec
  import Decoder = GraphDecode

  // ----- the state that is read -----

  lemma PayloadWhenThere(file: seq<Byte>, crc: Checksum, p: ParsedFile, kind: nat)
    requires IsParsed(file, crc, p)
    ensures Payload(file, p, kind).Some? <==> Has(p, kind)
  {
    hide DecodeHeader, TableDecodes, RestIsZero, AllApart;
    if Has(p, kind) {
      var i := FoundAt(p.entries, kind);
      assert EntryOk(file, p.entries[i]);
    }
  }

  lemma {:induction false} FoundAt(entries: seq<Entry>, kind: nat) returns (i: nat)
    requires Find(entries, kind).Some?
    ensures i < |entries| && entries[i] == Find(entries, kind).value && entries[i].kind == kind
  {
    if entries[0].kind == kind {
      i := 0;
    } else {
      var j := FoundAt(entries[1..], kind);
      i := j + 1;
    }
  }

  /** The metadata of a read state is what the writer records for it; a flat index's doubled link count is free. */
  lemma MetadataIsTheStates(file: seq<Byte>, w: World, p: ParsedFile, m: Metadata, s: IndexState)
    requires w.nodesPerChunk > 0 && Holds(file, w, p, m, s)
    ensures Marked(s) <= |s.labels| && m == MetaOf(s).(m0 := m.m0)
    ensures s.config.indexType == HNSW ==> m == MetaOf(s)
  {
    hide IsParsed, SectionsOk, DecodeMetadata, Payload, Ids.Restorable, Tombstones.Marks, Decoder.Encodes, Decoder.Storable;
  }

  lemma FlagsAreTheStates(file: seq<Byte>, w: World, p: ParsedFile, m: Metadata, s: IndexState)
    requires w.nodesPerChunk > 0 && Holds(file, w, p, m, s)
    ensures p.header.flags == FlagsOf(s)
  {
    hide DecodeMetadata, Payload, Ids.Restorable, Decoder.Encodes, Decoder.Storable, DecodeHeader, ChecksumsMatch;
    hide TableDecodes, RestIsZero, AllApart, EntriesOk, KindsDistinct, Find;
    PayloadWhenThere(file, w.crc, p, TOMBSTONES);
    EmptyMarks(s.deleted);
    NoMarks((m.nodeCount + 63) / 64);
    ThreeFlags(p.header.flags);
  }

  lemma EmptyMarks(words: seq<bv64>)
    ensures |Tombstones.Marks(words)| == 0 <==> Tombstones.Marks(words) == {}
  {
    hide Tombstones.Marks;
  }

  lemma ThreeFlags(flags: nat)
    requires flags < KNOWN_FLAGS
    ensures flags == (if HasGraph(flags) then 1 else 0) + (if HasTombstones(flags) then 2 else 0)
                     + (if IsNormalized(flags) then 4 else 0)
  {
  }

  /** The graph that is read is one that saving accepts, with its entry point on top. */
  lemma ReadGraphIsKept(w: World, sections: Codec.Sections, m: Metadata, g: Stored)
    requires w.nodesPerChunk > 0 && m.indexType == HNSW && m.nodeCount <= MAX_ROWS
    requires GraphRead(w, sections, m, Some(g))
    ensures Codec.HasLists(g.nodes) && Codec.AreBytes(Codec.LevelsOf(g.nodes))
    ensures sections == Codec.Encode(g.nodes, m.m)
    ensures Codec.KeptGraph(g.nodes, Codec.LevelsOf(g.nodes), ShapeOf(m))
    ensures Codec.EntryOk(Codec.LevelsOf(g.nodes), ShapeOf(m))
    ensures Decoder.Storable(ShapeOf(m), w.nodesPerChunk, Codec.LevelsOf(g.nodes))
  {
    hide Codec.NodeOk, Decoder.Storable, Codec.BaseWords, Codec.UpperWords, Codec.IndexWords;
  }

  /** The sections of an accepted file are the ones the writer makes for the state that is read, and no others. */
  lemma AcceptedSections(file: seq<Byte>, w: World, p: ParsedFile, m: Metadata, s: IndexState)
    requires w.nodesPerChunk > 0 && Holds(file, w, p, m, s)
    ensures HasEncoding(s) && Payload(file, p, METADATA) == Some(EncodeMetadata(m))
    ensures Payload(file, p, LABELS) == Some(Bytes(s.labels, 8)) && Payload(file, p, VECTORS) == Some(s.vectors)
    ensures Has(p, VECTORS) && Find(p.entries, VECTORS).value.offset % VECTOR_ALIGNMENT == 0
    ensures TombstonesThere(s, file, p) && GraphThere(s, file, p)
  {
    hide IsParsed, Payload, Find, Ids.Restorable, Tombstones.Marks, Decoder.Encodes, Decoder.Storable, ChecksumsMatch;
    hide DecodeMetadata, EncodeMetadata, WordBytes, Bytes, Codec.Encode;
    MetadataIsCanonical(Payload(file, p, METADATA).value);
    MetadataIsTheStates(file, w, p, m, s);
    PayloadWhenThere(file, w.crc, p, TOMBSTONES);
    EmptyMarks(s.deleted);
    NoMarks((m.nodeCount + 63) / 64);
    if m.indexType == HNSW {
      ReadGraphIsKept(w, GraphSections(file, p), m, s.graph.value);
    }
  }

  /** A state that was read meets everything saving asks, but for the size of the new file. */
  lemma ReadCanBeSaved(file: seq<Byte>, w: World, p: ParsedFile, m: Metadata, s: IndexState)
    requires w.nodesPerChunk > 0 && Holds(file, w, p, m, s) && Is32BitChecksum(w.crc)
    requires Marked(s) <= |s.labels| && HasEncoding(s) && FileSize(PlanOf(s)) < SIZE_LIMIT
    ensures Saveable(s, w) && HasLevel(s) && HasTopEntry(s)
  {
    hide IsParsed, SectionsOk, Payload, Ids.Restorable, Tombstones.Marks, Decoder.Encodes, Decoder.Storable, DecodeMetadata;
    hide PlanOf, FileSize, Codec.KeptGraph, Codec.EntryOk, EncodeMetadata, Bytes, WordBytes, HasEncoding;
    MetadataIsTheStates(file, w, p, m, s);
    PayloadsThere(file, w.crc, p);
    MetadataIsCanonical(Payload(file, p, METADATA).value);
    MetaWidthsHold(m);
    if m.indexType == HNSW {
      ReadGraphIsKept(w, GraphSections(file, p), m, s.graph.value);
    }
  }

  lemma MetaWidthsHold(m: Metadata)
    requires MetaFits(m)
    ensures m.m < 0x1_0000_0000 && m.efConstruction < 0x1_0000_0000 && m.efSearch < 0x1_0000_0000
    ensures m.seed < SIZE_LIMIT && m.created < SIZE_LIMIT && |m.creator| <= MAX_CREATOR
  {
    hide Power;
    Powers();
    var f, wd := MetaFields(m), MetaWidths();
    assert f[7] < Power(wd[7]) && f[9] < Power(wd[9]) && f[10] < Power(wd[10]) && f[15] < Power(wd[15]);
  }

  /** Whatever file a state was read from, saving the state gives a file that reads back as the same state. */
  lemma ReadStateSurvivesSaving(file: seq<Byte>, w: World, p: ParsedFile, m: Metadata, s: IndexState)
    requires w.nodesPerChunk > 0 && Holds(file, w, p, m, s) && Is32BitChecksum(w.crc)
    ensures Marked(s) <= |s.labels| && HasEncoding(s)
    ensures FileSize(PlanOf(s)) < SIZE_LIMIT ==> Holds(FileFor(s, w), w, ParsedFor(s, w), MetaOf(s), s)
  {
    hide Holds, Saveable, PlanOf, FileSize, FileFor, ParsedFor, TombstonesThere, GraphThere, Payload, Find, HasTopEntry;
    AcceptedSections(file, w, p, m, s);
    MetadataIsTheStates(file, w, p, m, s);
    if FileSize(PlanOf(s)) < SIZE_LIMIT {
      ReadCanBeSaved(file, w, p, m, s);
      WrittenIsRead(s, w);
    }
  }

  /** The sections of a saved state by their numbers in the file: which are there, and what they hold. */
  lemma SectionNumbers(s: IndexState, w: World)
    requires w.nodesPerChunk > 0 && Saveable(s, w)
    ensures var file, p := FileFor(s, w), ParsedFor(s, w);
            && Payload(file, p, 1) == Some(EncodeMetadata(MetaOf(s))) && Payload(file, p, 2) == Some(s.vectors)
            && Payload(file, p, 3) == Some(Bytes(s.labels, 8))
            && Payload(file, p, 4) == (if Marked(s) != 0 then Some(WordBytes(s.deleted)) else None)
            && (Has(p, 5) <==> s.graph.Some?) && (Has(p, 6) <==> s.graph.Some?)
            && (Has(p, 7) <==> s.graph.Some?) && (Has(p, 8) <==> s.graph.Some?)
            && (s.graph.Some? ==>
                  var g := GraphOf(s);
                  && BytesOr(Payload(file, p, 5)) == g.levels && BytesOr(Payload(file, p, 6)) == g.base
                  && BytesOr(Payload(file, p, 7)) == g.index && BytesOr(Payload(file, p, 8)) == g.upper)
            && p.header.flags == (if s.graph.Some? then 1 else 0) + (if Marked(s) != 0 then 2 else 0)
                                 + (if s.config.normalize || s.config.metric == 2 then 4 else 0)
  {
    hide PlanOf, FileFor, Payload, Find, GraphOf, Bytes, WordBytes, EncodeMetadata, MetaOf, SectionsOk, IsParsed, ValidPlan;
    WrittenSectionsOk(s, w);
  }

  /** The header of a saved state's file. */
  lemma SavedHeader(s: IndexState, w: World)
    requires w.nodesPerChunk > 0 && Saveable(s, w)
    ensures var file := FileFor(s, w);
            && |file| >= 64 && file[..8] == MAGIC_BYTES && Field(file[..64], 8, 2, 1) && Field(file[..64], 10, 2, 0)
            && Field(file[..64], 12, 4, 0x0102_0304) && Field(file[..64], 16, 8, FlagsOf(s))
            && Field(file[..64], 24, 8, |file|) && Field(file[..64], 40, 4, |PlanOf(s)|)
  {
    hide PlanOf, FileFor, IsParsed, SectionsOk, ValidPlan, FlagsOf, Saveable, Field, FileSize, TableOffset, EncodeTable;
    hide RequiredThere, TombstonesThere, GraphThere;
    Checksummed(s, w);
    WrittenSectionsOk(s, w);
    ParsedHeader(FileFor(s, w), w.crc, ParsedFor(s, w));
  }

  lemma ParsedHeader(file: seq<Byte>, crc: Checksum, p: ParsedFile)
    requires IsParsed(file, crc, p)
    ensures |file| >= 64 && file[..8] == MAGIC_BYTES && Field(file[..64], 8, 2, 1) && Field(file[..64], 10, 2, p.header.minor)
    ensures Field(file[..64], 12, 4, 0x0102_0304) && Field(file[..64], 16, 8, p.header.flags)
    ensures Field(file[..64], 24, 8, |file|) && Field(file[..64], 40, 4, |p.entries|)
  {
    hide IsParsed, Field, EntryStands, Placed, AllClear, InSection;
    ParsedIff(file, crc, p);
    assert file[..64][..8] == file[..8];
  }

  /** Which value of a saved state stands where in its metadata section. */
  lemma SavedMetadata(s: IndexState, w: World)
    requires w.nodesPerChunk > 0 && Saveable(s, w)
    ensures var b, c, n := EncodeMetadata(MetaOf(s)), s.config, |s.creator|;
            && |b| == 74 + n && Field(b, 0, 4, c.dim) && Field(b, 4, 1, c.metric) && Field(b, 5, 1, c.indexType)
            && Field(b, 6, 1, if c.normalize then 1 else 0) && Field(b, 8, 8, |s.labels|)
            && Field(b, 16, 8, |s.labels| - Marked(s)) && Field(b, 24, 4, c.m) && Field(b, 28, 4, (2 * c.m) % 0x1_0000_0000)
            && Field(b, 32, 4, c.efConstruction) && Field(b, 36, 4, c.efSearch) && Field(b, 40, 1, c.maxLevelCap)
            && Field(b, 41, 1, if s.graph.Some? then s.graph.value.entryLevel else 0)
            && Field(b, 44, 4, if s.graph.Some? then s.graph.value.entryPoint else 0xFFFF_FFFF)
            && Field(b, 48, 8, c.seed) && Field(b, 64, 2, n) && b[66..66 + n] == s.creator && Field(b, 66 + n, 8, s.created)
  {
    hide Saveable, EncodeMetadata, MetaFits, Field, Marked;
    Checksummed(s, w);
    MetaOfFits(s, w);
    MetadataLayout(MetaOf(s));
  }

  // ----- damaged sections -----

  /** The file with other bytes of the same length in place of a section. */
  function Replaced(file: seq<Byte>, e: Entry, bytes: seq<Byte>): (r: seq<Byte>)
    requires e.offset + e.size <= |file| && |bytes| == e.size
    ensures |r| == |file|
  {
    file[..e.offset] + bytes + file[e.offset + e.size..]
  }

  lemma ReplacedKeeps(file: seq<Byte>, e: Entry, bytes: seq<Byte>, lo: nat, hi: nat)
    requires e.offset + e.size <= |file| && |bytes| == e.size && lo <= hi <= |file|
    requires hi <= e.offset || e.offset + e.size <= lo
    ensures Replaced(file, e, bytes)[lo..hi] == file[lo..hi]
  {
    var r := Replaced(file, e, bytes);
    forall x: nat | lo <= x < hi
      ensures r[x] == file[x]
    {
      if x >= e.offset + e.size {
        assert r[x] == file[e.offset + e.size..][x - (e.offset + e.size)];
      }
    }
  }

  lemma ReplacedHolds(file: seq<Byte>, e: Entry, bytes: seq<Byte>)
    requires e.offset + e.size <= |file| && |bytes| == e.size
    ensures Replaced(file, e, bytes)[e.offset..e.offset + e.size] == bytes
  {
  }

  /** Header and table of a parsed file lie outside each section. */
  lemma SectionsApart(file: seq<Byte>, crc: Checksum, p: ParsedFile, i: nat)
    requires IsParsed(file, crc, p) && i < |p.entries|
    ensures var e, t := p.entries[i], TableRegion(p.header);
            && HEADER_SIZE <= e.offset && e.offset + e.size <= |file|
            && (t.end <= e.offset || e.offset + e.size <= t.begin)
  {
    hide DecodeHeader, TableDecodes, RestIsZero;
    var rs := RegionsOf(p);
    assert EntryOk(file, p.entries[i]);
    assert rs[i + 1] == EntryRegion(p.entries[i]) && rs[|rs| - 1] == TableRegion(p.header);
    assert Apart(rs[i + 1], rs[|rs| - 1]);
  }

  /** A damaged section changes neither header nor table, so a reader would find the same entries. */
  lemma SameEntries(file: seq<Byte>, crc: Checksum, p: ParsedFile, i: nat, bytes: seq<Byte>, q: ParsedFile)
    requires IsParsed(file, crc, p) && i < |p.entries|
    requires p.entries[i].offset + p.entries[i].size <= |file| && |bytes| == p.entries[i].size
    requires IsParsed(Replaced(file, p.entries[i], bytes), crc, q)
    ensures q == p
  {
    hide DecodeHeader, RestIsZero, AllApart, RegionsOf, EntriesOk, KindsDistinct, Replaced, EntryAt;
    var e, h := p.entries[i], p.header;
    SectionsApart(file, crc, p, i);
    ReplacedKeeps(file, e, bytes, 0, HEADER_SIZE);
    assert Replaced(file, e, bytes)[0..HEADER_SIZE] == Replaced(file, e, bytes)[..HEADER_SIZE];
    assert file[0..HEADER_SIZE] == file[..HEADER_SIZE];
    ReplacedKeeps(file, e, bytes, h.tableOffset, h.tableOffset + ENTRY_SIZE * h.sectionCount);
    AgreeSoFar(TableOf(file, h), p.entries, q.entries);
  }

  /**
    * Damage is noticed: a file whose section has been replaced by bytes of another checksum is refused, whatever those
    * bytes are, and whichever section it is.
    */
  lemma DamagedIsRefused(file: seq<Byte>, w: World, p: ParsedFile, i: nat, bytes: seq<Byte>,
                         q: ParsedFile, m: Metadata, s: IndexState)
    requires w.nodesPerChunk > 0 && IsParsed(file, w.crc, p) && i < |p.entries|
    requires p.entries[i].offset + p.entries[i].size <= |file| && |bytes| == p.entries[i].size
    requires w.crc(bytes) != p.entries[i].crc
    ensures !Holds(Replaced(file, p.entries[i], bytes), w, q, m, s)
  {
    hide IsParsed, Replaced, StateRead, DecodeMetadata, MetaOk, Payload;
    var damaged := Replaced(file, p.entries[i], bytes);
    if Holds(damaged, w, q, m, s) {
      SameEntries(file, w.crc, p, i, bytes, q);
      ReplacedHolds(file, p.entries[i], bytes);
    }
  }

  /** In particular, the file of a saved state with a damaged section holds no state. */
  lemma DamagedSaveIsRefused(s: IndexState, w: World, i: nat, bytes: seq<Byte>,
                             q: ParsedFile, m: Metadata, other: IndexState)
    requires w.nodesPerChunk > 0 && Saveable(s, w) && i < |PlanOf(s)|
    requires |bytes| == |PlanOf(s)[i].payload| && w.crc(bytes) != w.crc(PlanOf(s)[i].payload)
    ensures var e := EntryOf(PlanOf(s), i, w.crc);
            && e.offset + e.size <= |FileFor(s, w)|
            && FileFor(s, w)[e.offset..e.offset + e.size] == PlanOf(s)[i].payload
            && !Holds(Replaced(FileFor(s, w), e, bytes), w, q, m, other)
  {
    hide Saveable, PlanOf, FlagsOf, FileOf, Start, IsParsed, Holds, ValidPlan, HeaderOf;
    Checksummed(s, w);
    PlanIsValid(s, w);
    PlanOnly(PlanOf(s), FlagsOf(s));
    WrittenParses(PlanOf(s), FlagsOf(s), w.crc);
    WrittenPayload(PlanOf(s), FlagsOf(s), w.crc, i);
    DamagedIsRefused(FileFor(s, w), w, ParsedFor(s, w), i, bytes, q, m, other);
  }
}
