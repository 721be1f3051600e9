/**
  * A collection's persistent state as an index file: the sections it is written to, what the reader accepts, and
  * exactly when reading a written state gives it back.
  */
module IndexFile {
  import opened Options
  import opened LittleEndian
  import opened FileFormat
  import opened IndexContainer
  import Ids = IdMaps
  import Tombstones
  import Codec = GraphCodec
  import Decoder = GraphDecode

  const FLAT: nat := 0
  const HNSW: nat := 1
  const COSINE: nat := 2
  const MAX_DIM: nat := 65536
  const MAX_ROWS: nat := 0xFFFF_FFFF
  const MAX_LEVEL_CAP: nat := 32
  const MAX_EF: nat := 0x10_0000

  datatype Config = Config(
    dim: nat, metric: nat, indexType: nat, normalize: bool,
    m: nat, efConstruction: nat, efSearch: nat, maxLevelCap: nat, seed: nat)

  /** The graph with its entry point (EMPTY_SLOT and level 0 for an empty graph). */
  datatype Stored = Stored(nodes: Codec.Graph, entryPoint: nat, entryLevel: nat)

  datatype IndexState = IndexState(
    config: Config, creator: seq<Byte>, created: nat,
    labels: seq<Ids.ExternalId>, deleted: seq<bv64>, vectors: seq<Byte>, graph: Option<Stored>)

  // ----- kinds of sections -----

  const METADATA: nat := 1
  const VECTORS: nat := 2
  const LABELS: nat := 3
  const TOMBSTONES: nat := 4
  const LEVELS: nat := 5
  const L0_LINKS: nat := 6
  const UPPER_INDEX: nat := 7
  const UPPER_LINKS: nat := 8

  function Find(entries: seq<Entry>, kind: nat): Option<Entry> {
    if entries == [] then None
    else if entries[0].kind == kind then Some(entries[0])
    else Find(entries[1..], kind)
  }

  /** The bytes of a section, if the file has it. */
  function Payload(file: seq<Byte>, p: ParsedFile, kind: nat): Option<seq<Byte>> {
    match Find(p.entries, kind)
    case None => None
    case Some(e) => if e.offset + e.size <= |file| then Some(file[e.offset..e.offset + e.size]) else None
  }

  // ----- bits and words -----

  function LowEight(w: bv64): bv8 {
    (w & 0xFF) as bv8
  }

  /** Byte `i` of a word, lowest first. */
  function Octet(w: bv64, i: nat): bv8
    requires i < 8
  {
    if i == 0 then LowEight(w) else if i == 1 then LowEight(w >> 8)
    else if i == 2 then LowEight(w >> 16) else if i == 3 then LowEight(w >> 24)
    else if i == 4 then LowEight(w >> 32) else if i == 5 then LowEight(w >> 40)
    else if i == 6 then LowEight(w >> 48) else LowEight(w >> 56)
  }

  function BytesOfBits(w: bv64): (bytes: seq<Byte>)
    ensures |bytes| == 8
  {
    [AsByte(Octet(w, 0)), AsByte(Octet(w, 1)), AsByte(Octet(w, 2)), AsByte(Octet(w, 3)),
     AsByte(Octet(w, 4)), AsByte(Octet(w, 5)), AsByte(Octet(w, 6)), AsByte(Octet(w, 7))]
  }

  function AsByte(b: bv8): Byte {
    b as nat
  }

  /** A byte's value as bits, counting up to it. */
  function AsBits8(b: nat): bv8 {
    if b == 0 then 0 else AsBits8(b - 1) + 1
  }

  function Joined8(b0: bv8, b1: bv8, b2: bv8, b3: bv8, b4: bv8, b5: bv8, b6: bv8, b7: bv8): bv64 {
    (b0 as bv64) | ((b1 as bv64) << 8) | ((b2 as bv64) << 16) | ((b3 as bv64) << 24)
    | ((b4 as bv64) << 32) | ((b5 as bv64) << 40) | ((b6 as bv64) << 48) | ((b7 as bv64) << 56)
  }

  function BitsOfBytes(bytes: seq<Byte>): bv64
    requires |bytes| == 8
  {
    Joined8(AsBits8(bytes[0]), AsBits8(bytes[1]), AsBits8(bytes[2]), AsBits8(bytes[3]),
            AsBits8(bytes[4]), AsBits8(bytes[5]), AsBits8(bytes[6]), AsBits8(bytes[7]))
  }

  lemma NextBits(x: bv8)
    requires x as nat < 255
    ensures (x + 1) as nat == x as nat + 1
  {
  }

  lemma ZeroBits()
    ensures (0 as bv8) as nat == 0
  {
  }

  lemma {:induction false} ByteAsBits(b: nat)
    requires b < 256
    ensures AsBits8(b) as nat == b
  {
    if b == 0 {
      ZeroBits();
    } else {
      ByteAsBits(b - 1);
      NextBits(AsBits8(b - 1));
    }
  }

  lemma SameBits(x: bv8, y: bv8)
    requires x as nat == y as nat
    ensures x == y
  {
    assert (x as nat) as bv8 == x && (y as nat) as bv8 == y;
  }

  lemma ByteBack(b: bv8)
    ensures AsBits8(AsByte(b)) == b
  {
    ByteAsBits(b as nat);
    SameBits(AsBits8(b as nat), b);
  }

  lemma BitsBack(b: Byte)
    ensures AsByte(AsBits8(b)) == b
  {
    ByteAsBits(b);
  }

  lemma SplitAndJoin(w: bv64)
    ensures Joined8(LowEight(w), LowEight(w >> 8), LowEight(w >> 16), LowEight(w >> 24),
                    LowEight(w >> 32), LowEight(w >> 40), LowEight(w >> 48), LowEight(w >> 56)) == w
  {
  }

  lemma JoinAndSplit(b0: bv8, b1: bv8, b2: bv8, b3: bv8, b4: bv8, b5: bv8, b6: bv8, b7: bv8)
    ensures var w := Joined8(b0, b1, b2, b3, b4, b5, b6, b7);
            && LowEight(w) == b0 && LowEight(w >> 8) == b1 && LowEight(w >> 16) == b2 && LowEight(w >> 24) == b3
            && LowEight(w >> 32) == b4 && LowEight(w >> 40) == b5 && LowEight(w >> 48) == b6 && LowEight(w >> 56) == b7
  {
  }

  lemma OctetsJoin(w: bv64)
    ensures Joined8(Octet(w, 0), Octet(w, 1), Octet(w, 2), Octet(w, 3), Octet(w, 4), Octet(w, 5), Octet(w, 6), Octet(w, 7)) == w
  {
    hide LowEight, Joined8;
    SplitAndJoin(w);
  }

  lemma OctetsOfJoin(b0: bv8, b1: bv8, b2: bv8, b3: bv8, b4: bv8, b5: bv8, b6: bv8, b7: bv8)
    ensures var w := Joined8(b0, b1, b2, b3, b4, b5, b6, b7);
            && Octet(w, 0) == b0 && Octet(w, 1) == b1 && Octet(w, 2) == b2 && Octet(w, 3) == b3
            && Octet(w, 4) == b4 && Octet(w, 5) == b5 && Octet(w, 6) == b6 && Octet(w, 7) == b7
  {
    hide LowEight, Joined8;
    JoinAndSplit(b0, b1, b2, b3, b4, b5, b6, b7);
  }

  lemma WordBack(w: bv64)
    ensures BitsOfBytes(BytesOfBits(w)) == w
  {
    hide Octet, Joined8, AsByte, AsBits8;
    OctetsJoin(w);
    ByteBack(Octet(w, 0)); ByteBack(Octet(w, 1)); ByteBack(Octet(w, 2)); ByteBack(Octet(w, 3));
    ByteBack(Octet(w, 4)); ByteBack(Octet(w, 5)); ByteBack(Octet(w, 6)); ByteBack(Octet(w, 7));
  }

  lemma BytesBack(bytes: seq<Byte>)
    requires |bytes| == 8
    ensures BytesOfBits(BitsOfBytes(bytes)) == bytes
  {
    hide Octet, Joined8, AsByte, AsBits8;
    OctetsOfJoin(AsBits8(bytes[0]), AsBits8(bytes[1]), AsBits8(bytes[2]), AsBits8(bytes[3]),
                 AsBits8(bytes[4]), AsBits8(bytes[5]), AsBits8(bytes[6]), AsBits8(bytes[7]));
    BitsBack(bytes[0]); BitsBack(bytes[1]); BitsBack(bytes[2]); BitsBack(bytes[3]);
    BitsBack(bytes[4]); BitsBack(bytes[5]); BitsBack(bytes[6]); BitsBack(bytes[7]);
  }

  /** Tombstone words as a section. */
  function WordBytes(words: seq<bv64>): (bytes: seq<Byte>)
    ensures |bytes| == 8 * |words|
  {
    if words == [] then [] else WordBytes(words[..|words| - 1]) + BytesOfBits(words[|words| - 1])
  }

  function WordsOfBytes(bytes: seq<Byte>): (words: seq<bv64>)
    ensures |words| == |bytes| / 8
    decreases |bytes|
  {
    if |bytes| < 8 then []
    else WordsOfBytes(bytes[..|bytes| - 8]) + [BitsOfBytes(bytes[|bytes| - 8..])]
  }

  lemma {:induction false} WordsBackFromBytes(words: seq<bv64>)
    ensures WordsOfBytes(WordBytes(words)) == words
  {
    hide BitsOfBytes, BytesOfBits;
    if words != [] {
      var front, last, bytes := words[..|words| - 1], words[|words| - 1], WordBytes(words);
      WordsBackFromBytes(front);
      WordBack(last);
      assert bytes[..|bytes| - 8] == WordBytes(front) && bytes[|bytes| - 8..] == BytesOfBits(last);
    }
  }

  lemma {:induction false} BytesBackFromWords(bytes: seq<Byte>)
    requires |bytes| % 8 == 0
    ensures WordBytes(WordsOfBytes(bytes)) == bytes
    decreases |bytes|
  {
    hide BitsOfBytes, BytesOfBits;
    if bytes != [] {
      var front, last := bytes[..|bytes| - 8], bytes[|bytes| - 8..];
      BytesBackFromWords(front);
      BytesBack(last);
      var words := WordsOfBytes(bytes);
      assert words[..|words| - 1] == WordsOfBytes(front);
    }
  }

  /** The words of an array of 64-bit integers. */
  function WordsOf(bytes: seq<Byte>): (words: seq<nat>)
    ensures |words| == |bytes| / 8
  {
    seq(|bytes| / 8, i requires 0 <= i < |bytes| / 8 => WordAt(bytes, 8, i))
  }

  lemma WordsFit(bytes: seq<Byte>)
    ensures FitIn(WordsOf(bytes), 8)
    ensures |bytes| % 8 == 0 ==> Bytes(WordsOf(bytes), 8) == bytes
  {
    var words := WordsOf(bytes);
    forall w: nat | w < |words|
      ensures words[w] < Power(8)
    {
      PutGet(bytes[8 * w..8 * w + 8]);
    }
    if |bytes| % 8 == 0 {
      forall w: nat | w < |words|
        ensures Reads(bytes, 8, w, words[w])
      {
      }
      BytesOfWords(bytes, words, 8);
    }
  }

  lemma WordsBack(words: seq<nat>)
    requires FitIn(words, 8)
    ensures WordsOf(Bytes(words, 8)) == words
  {
    var bytes := Bytes(words, 8);
    forall w: nat | w < |words|
      ensures WordsOf(bytes)[w] == words[w]
    {
      BytesRead(words, 8, w);
    }
  }

  // ----- what the reader accepts -----

  predicate HasGraph(flags: nat) {
    flags % 2 == 1
  }

  predicate HasTombstones(flags: nat) {
    (flags / 2) % 2 == 1
  }

  predicate IsNormalized(flags: nat) {
    (flags / 4) % 2 == 1
  }

  predicate ParamsOk(m: nat, efConstruction: nat, efSearch: nat, maxLevelCap: nat) {
    2 <= m <= 512 && m <= efConstruction <= MAX_EF && 1 <= efSearch <= MAX_EF && 1 <= maxLevelCap <= MAX_LEVEL_CAP
  }

  /** The checks on metadata values, including the level cap of a flat index, which has no use for one. */
  predicate MetaOk(m: Metadata, flags: nat) {
    && 1 <= m.dim <= MAX_DIM && m.metric <= COSINE && m.indexType <= HNSW && m.normalize <= 1
    && m.nodeCount <= MAX_ROWS && m.liveCount <= m.nodeCount
    && (IsNormalized(flags) <==> m.normalize == 1 || m.metric == COSINE)
    && (HasGraph(flags) <==> m.indexType == HNSW)
    && m.maxLevelCap <= MAX_LEVEL_CAP && m.maxLevel <= m.maxLevelCap
    && (m.indexType == HNSW ==> ParamsOk(m.m, m.efConstruction, m.efSearch, m.maxLevelCap) && m.m0 == 2 * m.m)
    && (m.indexType == FLAT ==> m.entryPoint == Codec.EMPTY_SLOT && m.maxLevel == 0)
  }

  predicate Has(p: ParsedFile, kind: nat) {
    Find(p.entries, kind).Some?
  }

  predicate ChecksumsMatch(file: seq<Byte>, crc: Checksum, entries: seq<Entry>) {
    forall i: nat | i < |entries| ::
      entries[i].offset + entries[i].size <= |file|
      && crc(file[entries[i].offset..entries[i].offset + entries[i].size]) == entries[i].crc
  }

  /** The right sections are there, the vectors start on a page, and every checksum matches. */
  predicate SectionsOk(file: seq<Byte>, crc: Checksum, p: ParsedFile) {
    && Payload(file, p, METADATA).Some? && Payload(file, p, VECTORS).Some? && Payload(file, p, LABELS).Some?
    && (Has(p, TOMBSTONES) <==> HasTombstones(p.header.flags))
    && (Has(p, LEVELS) <==> HasGraph(p.header.flags)) && (Has(p, L0_LINKS) <==> HasGraph(p.header.flags))
    && (Has(p, UPPER_INDEX) <==> HasGraph(p.header.flags)) && (Has(p, UPPER_LINKS) <==> HasGraph(p.header.flags))
    && Has(p, VECTORS) && Find(p.entries, VECTORS).value.offset % VECTOR_ALIGNMENT == 0
    && ChecksumsMatch(file, crc, p.entries)
  }

  function ConfigOf(m: Metadata): Config {
    Config(m.dim, m.metric, m.indexType, m.normalize == 1, m.m, m.efConstruction, m.efSearch, m.maxLevelCap, m.seed)
  }

  function ShapeOf(m: Metadata): Codec.Shape {
    Codec.Shape(m.m, m.maxLevelCap, m.nodeCount, m.entryPoint, m.maxLevel)
  }

  function BytesOr(o: Option<seq<Byte>>): seq<Byte> {
    if o.Some? then o.value else []
  }

  function GraphSections(file: seq<Byte>, p: ParsedFile): Codec.Sections {
    Codec.Sections(BytesOr(Payload(file, p, LEVELS)), BytesOr(Payload(file, p, L0_LINKS)),
                   BytesOr(Payload(file, p, UPPER_INDEX)), BytesOr(Payload(file, p, UPPER_LINKS)))
  }

  /** What the reader cannot see into: the checksum, the check of vector components, and the graph's chunk size. */
  datatype World = World(crc: Checksum, componentsOk: seq<Byte> -> bool, nodesPerChunk: nat)

  ghost predicate LabelsRead(bytes: Option<seq<Byte>>, labels: seq<Ids.ExternalId>) {
    bytes == Some(Bytes(labels, 8))
  }

  /** Tombstones: a section exactly when some row is marked, and no mark past the last row. */
  ghost predicate DeletedRead(bytes: Option<seq<Byte>>, deleted: seq<bv64>, n: nat, live: nat) {
    && |deleted| == (n + 63) / 64 && (forall id <- Tombstones.Marks(deleted) :: id < n)
    && n - |Tombstones.Marks(deleted)| == live
    && (if bytes.None? then deleted == Tombstones.ZeroWords((n + 63) / 64)
        else Tombstones.Marks(deleted) != {} && bytes == Some(WordBytes(deleted)))
  }

  ghost predicate GraphRead(w: World, sections: Codec.Sections, m: Metadata, graph: Option<Stored>)
    requires w.nodesPerChunk > 0
  {
    if m.indexType == HNSW then
      && graph.Some? && graph.value.entryPoint == m.entryPoint && graph.value.entryLevel == m.maxLevel
      && Decoder.Encodes(graph.value.nodes, ShapeOf(m), sections)
      && Decoder.Storable(ShapeOf(m), w.nodesPerChunk, sections.levels)
    else graph == None
  }

  /** The file is accepted as `p`, and its metadata section as `m`. */
  ghost predicate Accepted(file: seq<Byte>, w: World, p: ParsedFile, m: Metadata) {
    && IsParsed(file, w.crc, p) && SectionsOk(file, w.crc, p)
    && DecodeMetadata(Payload(file, p, METADATA).value) == Some(m) && MetaOk(m, p.header.flags)
  }

  /** Labels and tombstones: consistent with each other, so that the id map can be rebuilt. */
  ghost predicate RowsRead(file: seq<Byte>, p: ParsedFile, m: Metadata, labels: seq<Ids.ExternalId>, deleted: seq<bv64>) {
    && |labels| == m.nodeCount && LabelsRead(Payload(file, p, LABELS), labels)
    && DeletedRead(Payload(file, p, TOMBSTONES), deleted, m.nodeCount, m.liveCount)
    && Ids.Restorable(labels, Tombstones.Marks(deleted), |labels|)
  }

  ghost predicate VectorsRead(file: seq<Byte>, w: World, p: ParsedFile, m: Metadata, vectors: seq<Byte>) {
    Payload(file, p, VECTORS) == Some(vectors) && |vectors| == m.nodeCount * m.dim * 4 && w.componentsOk(vectors)
  }

  /** `s` is what the sections of an accepted file hold. */
  ghost predicate StateRead(file: seq<Byte>, w: World, p: ParsedFile, m: Metadata, s: IndexState)
    requires w.nodesPerChunk > 0
  {
    && s.config == ConfigOf(m) && s.creator == m.creator && s.created == m.created
    && RowsRead(file, p, m, s.labels, s.deleted)
    && GraphRead(w, GraphSections(file, p), m, s.graph)
    && VectorsRead(file, w, p, m, s.vectors)
  }

  ghost predicate Holds(file: seq<Byte>, w: World, p: ParsedFile, m: Metadata, s: IndexState)
    requires w.nodesPerChunk > 0
  {
    Accepted(file, w, p, m) && StateRead(file, w, p, m, s)
  }

  // ----- the reader -----

  lemma NoMarks(n: nat)
    ensures Tombstones.Marks(Tombstones.ZeroWords(n)) == {}
  {
    assert [] + Tombstones.ZeroWords(n) == Tombstones.ZeroWords(n);
    Tombstones.GrownMarks([], n);
  }

  lemma LabelsFit(labels: seq<Ids.ExternalId>)
    ensures FitIn(labels, 8)
  {
    Powers();
  }

  /** Reads the tombstone section, or makes empty tombstones. */
  method ReadDeleted(bytes: Option<seq<Byte>>, n: nat, live: nat) returns (r: Option<Tombstones.TombstoneSet>)
    ensures r.Some? ==> fresh(r.value) && r.value.Valid() && DeletedRead(bytes, r.value.words, n, live)
    ensures forall d: seq<bv64> | DeletedRead(bytes, d, n, live) :: r.Some? && r.value.words == d
  {
    hide WordBytes, WordsOfBytes, Tombstones.Marks;
    NoMarks((n + 63) / 64);
    var deleted;
    if bytes.Some? {
      forall d: seq<bv64> | DeletedRead(bytes, d, n, live)
        ensures |bytes.value| == 8 * |d| && WordsOfBytes(bytes.value) == d
      {
        WordsBackFromBytes(d);
      }
      if |bytes.value| != (n + 63) / 64 * 8 {
        return None;
      }
      BytesBackFromWords(bytes.value);
      var restored := Tombstones.TombstoneSet.Restore(WordsOfBytes(bytes.value), n);
      if restored.Malformed? {
        return None;
      }
      deleted := restored.tombstones;
      if deleted.count == 0 {
        assert Tombstones.Marks(deleted.words) == {};
        return None;
      }
    } else {
      deleted := new Tombstones.TombstoneSet();
    }
    ghost var words := deleted.words;
    deleted.EnsureSize(n);
    assert bytes.Some? ==> deleted.words == words;
    assert bytes.None? ==> words == [] && [] + Tombstones.ZeroWords((n + 63) / 64) == Tombstones.ZeroWords((n + 63) / 64);
    assert bytes.None? ==> deleted.words == Tombstones.ZeroWords((n + 63) / 64);
    if n - deleted.count != live {
      return None;
    }
    return Some(deleted);
  }

  /** The labels of a section of the right size. */
  function LabelsOf(bytes: seq<Byte>): (labels: seq<Ids.ExternalId>)
    ensures |labels| == |bytes| / 8
  {
    WordsFit(bytes);
    Powers();
    assert forall i: nat | i < |WordsOf(bytes)| :: WordsOf(bytes)[i] < Power(8);
    seq(|bytes| / 8, i requires 0 <= i < |bytes| / 8 && WordsOf(bytes)[i] < SIZE_LIMIT => WordsOf(bytes)[i])
  }

  lemma LabelsBack(bytes: seq<Byte>, labels: seq<Ids.ExternalId>)
    ensures LabelsRead(Some(bytes), labels) <==> |bytes| == 8 * |labels| && LabelsOf(bytes) == labels
  {
    hide Bytes;
    WordsFit(bytes);
    if LabelsRead(Some(bytes), labels) {
      LabelsFit(labels);
      WordsBack(labels);
    }
    if |bytes| == 8 * |labels| && LabelsOf(bytes) == labels {
      var words: seq<nat> := labels;
      assert words == WordsOf(bytes);
    }
  }

  method ReadGraph(w: World, sections: Codec.Sections, m: Metadata) returns (r: Option<Stored>)
    requires w.nodesPerChunk > 0 && m.indexType == HNSW && m.m <= 512 && m.nodeCount <= MAX_ROWS
    requires |sections.levels| < SIZE_LIMIT && |sections.base| < SIZE_LIMIT
    requires |sections.index| < SIZE_LIMIT && |sections.upper| < SIZE_LIMIT
    ensures r.Some? ==> GraphRead(w, sections, m, r)
    ensures forall g: Option<Stored> | GraphRead(w, sections, m, g) :: r == g
  {
    hide Decoder.Encodes, Decoder.Storable;
    var decoded := Decoder.Decode(sections, ShapeOf(m), w.nodesPerChunk);
    r := if decoded.Decoded? then Some(Stored(decoded.graph, m.entryPoint, m.maxLevel)) else None;
  }

  datatype Rows = Rows(labels: seq<Ids.ExternalId>, deleted: seq<bv64>)

  /** Labels and tombstones, and the id map they determine. */
  method ReadRows(file: seq<Byte>, p: ParsedFile, m: Metadata) returns (r: Option<Rows>)
    requires Payload(file, p, LABELS).Some? && m.nodeCount <= MAX_ROWS
    ensures r.Some? ==> RowsRead(file, p, m, r.value.labels, r.value.deleted)
    ensures forall labels, deleted | RowsRead(file, p, m, labels, deleted) :: r == Some(Rows(labels, deleted))
  {
    hide LabelsRead, DeletedRead, Ids.Restorable, Tombstones.Marks, Payload;
    var n, bytes := m.nodeCount, Payload(file, p, LABELS).value;
    forall labels
      ensures LabelsRead(Some(bytes), labels) <==> |bytes| == 8 * |labels| && LabelsOf(bytes) == labels
    {
      LabelsBack(bytes, labels);
    }
    if |bytes| != 8 * n {
      return None;
    }
    var deleted := ReadDeleted(Payload(file, p, TOMBSTONES), n, m.liveCount);
    if deleted.None? {
      return None;
    }
    var labels := LabelsOf(bytes);
    var ids := new Ids.IdMap();
    var unique := ids.Restore(labels, deleted.value);
    if !unique {
      return None;
    }
    return Some(Rows(labels, deleted.value.words));
  }

  /** The graph, for an index that has one. */
  method ReadOptionalGraph(file: seq<Byte>, w: World, p: ParsedFile, m: Metadata) returns (ok: bool, graph: Option<Stored>)
    requires w.nodesPerChunk > 0 && |file| < SIZE_LIMIT && MetaOk(m, p.header.flags)
    ensures ok ==> GraphRead(w, GraphSections(file, p), m, graph)
    ensures forall g: Option<Stored> | GraphRead(w, GraphSections(file, p), m, g) :: ok && graph == g
  {
    hide MetaOk, GraphRead;
    MetaMeans(m, p.header.flags);
    if m.indexType == HNSW {
      SectionsFit(file, p);
      graph := ReadGraph(w, GraphSections(file, p), m);
      HnswHasGraph(w, GraphSections(file, p), m);
      return graph.Some?, graph;
    } else {
      FlatHasNone(w, GraphSections(file, p), m);
      return true, None;
    }
  }

  method ReadState(file: seq<Byte>, w: World, p: ParsedFile, m: Metadata) returns (r: Option<IndexState>)
    requires w.nodesPerChunk > 0 && |file| < SIZE_LIMIT && SectionsOk(file, w.crc, p) && MetaOk(m, p.header.flags)
    ensures r.Some? ==> StateRead(file, w, p, m, r.value)
    ensures forall s | StateRead(file, w, p, m, s) :: r == Some(s)
  {
    hide SectionsOk, MetaOk, RowsRead, GraphRead, Payload;
    PayloadsThere(file, w.crc, p);
    MetaMeans(m, p.header.flags);
    var vectors := Payload(file, p, VECTORS).value;
    if |vectors| != m.nodeCount * m.dim * 4 {
      return None;
    }
    var rows := ReadRows(file, p, m);
    if rows.None? {
      return None;
    }
    var ok, graph := ReadOptionalGraph(file, w, p, m);
    if !ok || !w.componentsOk(vectors) {
      return None;
    }
    return Some(IndexState(ConfigOf(m), m.creator, m.created, rows.value.labels, rows.value.deleted, vectors, graph));
  }

  /** The bytes an entry names are in the file and have the checksum it records. */
  predicate Intact(file: seq<Byte>, crc: Checksum, e: Entry) {
    e.offset + e.size <= |file| && crc(file[e.offset..e.offset + e.size]) == e.crc
  }

  lemma AcceptedIsIntact(file: seq<Byte>, crc: Checksum, p: ParsedFile)
    requires SectionsOk(file, crc, p)
    ensures forall e <- p.entries :: Intact(file, crc, e)
  {
    hide Find, Payload;
  }

  /** Reads a whole file: every check of the reader, and the state it builds. */
  method ReadIndex(file: seq<Byte>, w: World) returns (r: Option<IndexState>)
    requires w.nodesPerChunk > 0 && |file| < SIZE_LIMIT
    ensures r.Some? ==>
              exists p, m :: Holds(file, w, p, m, r.value) && forall e <- p.entries :: Intact(file, w.crc, e)
    ensures forall p, m, s | Holds(file, w, p, m, s) :: r == Some(s)
  {
    hide IsParsed, SectionsOk, MetaOk, StateRead, DecodeMetadata, Payload;
    var parsed := Parse(file, w.crc);
    if parsed.None? || !SectionsOk(file, w.crc, parsed.value) {
      return None;
    }
    var p := parsed.value;
    PayloadsThere(file, w.crc, p);
    var decoded := DecodeMetadata(Payload(file, p, METADATA).value);
    if decoded.None? || !MetaOk(decoded.value, p.header.flags) {
      return None;
    }
    r := ReadState(file, w, p, decoded.value);
    if r.Some? {
      AcceptedIsIntact(file, w.crc, p);
      assert Holds(file, w, p, decoded.value, r.value);
    }
  }

  lemma PayloadsThere(file: seq<Byte>, crc: Checksum, p: ParsedFile)
    requires SectionsOk(file, crc, p)
    ensures Payload(file, p, METADATA).Some? && Payload(file, p, VECTORS).Some? && Payload(file, p, LABELS).Some?
  {
  }

  lemma MetaMeans(m: Metadata, flags: nat)
    requires MetaOk(m, flags)
    ensures m.nodeCount <= MAX_ROWS && (m.indexType == HNSW || m.indexType == FLAT)
    ensures m.indexType == HNSW ==> m.m <= 512
  {
  }

  lemma SectionsFit(file: seq<Byte>, p: ParsedFile)
    requires |file| < SIZE_LIMIT
    ensures var g := GraphSections(file, p);
            |g.levels| < SIZE_LIMIT && |g.base| < SIZE_LIMIT && |g.index| < SIZE_LIMIT && |g.upper| < SIZE_LIMIT
  {
  }

  lemma HnswHasGraph(w: World, sections: Codec.Sections, m: Metadata)
    requires w.nodesPerChunk > 0 && m.indexType == HNSW
    ensures !GraphRead(w, sections, m, None)
  {
  }

  lemma FlatHasNone(w: World, sections: Codec.Sections, m: Metadata)
    requires w.nodesPerChunk > 0 && m.indexType != HNSW
    ensures forall g: Option<Stored> :: GraphRead(w, sections, m, g) <==> g == None
  {
  }

  // ----- the writer's plan -----

  ghost function Marked(s: IndexState): nat {
    |Tombstones.Marks(s.deleted)|
  }

  /** The metadata record of a state; the doubled link count is stored in 32 bits. */
  ghost function MetaOf(s: IndexState): Metadata
    requires Marked(s) <= |s.labels|
  {
    var c := s.config;
    Metadata(c.dim, c.metric, c.indexType, if c.normalize then 1 else 0, |s.labels|, |s.labels| - Marked(s),
             c.m, (2 * c.m) % 0x1_0000_0000, c.efConstruction, c.efSearch, c.maxLevelCap,
             if s.graph.Some? then s.graph.value.entryLevel else 0,
             if s.graph.Some? then s.graph.value.entryPoint else Codec.EMPTY_SLOT,
             c.seed, s.creator, s.created)
  }

  ghost function FlagsOf(s: IndexState): nat {
    (if s.graph.Some? then 1 else 0) + (if Marked(s) != 0 then 2 else 0)
      + (if s.config.normalize || s.config.metric == COSINE then 4 else 0)
  }

  ghost predicate HasEncoding(s: IndexState) {
    s.graph.Some? ==> Codec.HasLists(s.graph.value.nodes) && Codec.AreBytes(Codec.LevelsOf(s.graph.value.nodes))
  }

  ghost function GraphOf(s: IndexState): Codec.Sections
    requires HasEncoding(s) && s.graph.Some?
  {
    Codec.Encode(s.graph.value.nodes, s.config.m)
  }

  lemma PlanAppend(a: seq<Planned>, b: seq<Planned>)
    requires Plan(a) && Plan(b)
    ensures Plan(a + b)
  {
  }

  ghost function TombstonePlan(s: IndexState): (plan: seq<Planned>)
    ensures Plan(plan)
  {
    if Marked(s) != 0 then [Planned(TOMBSTONES, WordBytes(s.deleted), ALIGNMENT)] else []
  }

  ghost function GraphPlan(s: IndexState): (plan: seq<Planned>)
    requires HasEncoding(s)
    ensures Plan(plan)
  {
    if s.graph.None? then []
    else
      var g := GraphOf(s);
      [Planned(LEVELS, g.levels, ALIGNMENT), Planned(L0_LINKS, g.base, ALIGNMENT),
       Planned(UPPER_INDEX, g.index, ALIGNMENT), Planned(UPPER_LINKS, g.upper, ALIGNMENT)]
  }

  function HeadPlan(metadata: seq<Byte>, labels: seq<Byte>): (plan: seq<Planned>)
    ensures Plan(plan)
  {
    [Planned(METADATA, metadata, ALIGNMENT), Planned(LABELS, labels, ALIGNMENT)]
  }

  ghost function FirstPlan(s: IndexState): (plan: seq<Planned>)
    requires Marked(s) <= |s.labels|
    ensures Plan(plan)
  {
    HeadPlan(EncodeMetadata(MetaOf(s)), Bytes(s.labels, 8))
  }

  ghost function LastPlan(s: IndexState): (plan: seq<Planned>)
    ensures Plan(plan)
  {
    [Planned(VECTORS, s.vectors, VECTOR_ALIGNMENT)]
  }

  ghost function PlanOf(s: IndexState): (plan: seq<Planned>)
    requires Marked(s) <= |s.labels| && HasEncoding(s)
    ensures Plan(plan)
  {
    PlanAppend(FirstPlan(s), TombstonePlan(s));
    PlanAppend(FirstPlan(s) + TombstonePlan(s), GraphPlan(s));
    PlanAppend(FirstPlan(s) + TombstonePlan(s) + GraphPlan(s), LastPlan(s));
    FirstPlan(s) + TombstonePlan(s) + GraphPlan(s) + LastPlan(s)
  }

  /** What a configuration is checked for when a collection is created; a flat index's graph parameters are not. */
  predicate Creatable(c: Config) {
    && 1 <= c.dim <= MAX_DIM && c.metric <= COSINE && c.indexType <= HNSW
    && (c.indexType == HNSW ==> ParamsOk(c.m, c.efConstruction, c.efSearch, c.maxLevelCap))
  }

  /** The integer widths of the configuration's fields. */
  predicate Typed(s: IndexState) {
    && s.config.m < 0x1_0000_0000 && s.config.efConstruction < 0x1_0000_0000 && s.config.efSearch < 0x1_0000_0000
    && s.config.maxLevelCap < 256 && s.config.seed < SIZE_LIMIT && s.created < SIZE_LIMIT && |s.creator| <= MAX_CREATOR
  }

  /**
    * The state of a collection as its own operations keep it: rows, marks and labels agree, and the graph is one that
    * insertion leaves behind. `SavedGraphs.QuietGraphIsKept` proves the last part of every run of the link protocol.
    */
  ghost predicate Saveable(s: IndexState, w: World)
    requires w.nodesPerChunk > 0
  {
    && Creatable(s.config) && Typed(s) && |s.labels| <= MAX_ROWS
    && |s.deleted| == (|s.labels| + 63) / 64 && (forall id <- Tombstones.Marks(s.deleted) :: id < |s.labels|)
    && Marked(s) <= |s.labels|
    && Ids.Restorable(s.labels, Tombstones.Marks(s.deleted), |s.labels|)
    && |s.vectors| == |s.labels| * s.config.dim * 4 && w.componentsOk(s.vectors)
    && (s.config.indexType == HNSW <==> s.graph.Some?)
    && HasEncoding(s)
    && (s.graph.Some? ==>
          && Codec.KeptGraph(s.graph.value.nodes, Codec.LevelsOf(s.graph.value.nodes), ShapeOf(MetaOf(s)))
          && Decoder.Storable(ShapeOf(MetaOf(s)), w.nodesPerChunk, Codec.LevelsOf(s.graph.value.nodes)))
    && FileSize(PlanOf(s)) < SIZE_LIMIT && Is32BitChecksum(w.crc)
  }

  // ----- finding sections in a written file -----

  lemma {:induction false} FindFirst(entries: seq<Entry>, i: nat)
    requires i < |entries| && forall j: nat | j < i :: entries[j].kind != entries[i].kind
    ensures Find(entries, entries[i].kind) == Some(entries[i])
  {
    if i > 0 {
      FindFirst(entries[1..], i - 1);
    }
  }

  lemma {:induction false} FindNothing(entries: seq<Entry>, kind: nat)
    requires forall i: nat | i < |entries| :: entries[i].kind != kind
    ensures Find(entries, kind) == None
  {
    if entries != [] {
      FindNothing(entries[1..], kind);
    }
  }

  /** A planned section is found, with its bytes. */
  lemma PlannedPayload(plan: seq<Planned>, flags: nat, crc: Checksum, i: nat)
    requires ValidPlan(plan, flags) && Is32BitChecksum(crc) && i < |plan|
    ensures Find(Entries(plan, crc), plan[i].kind) == Some(EntryOf(plan, i, crc))
    ensures Payload(FileOf(plan, flags, crc), Written(plan, flags, crc), plan[i].kind) == Some(plan[i].payload)
  {
    hide FileOf, Start, HeaderOf;
    FindFirst(Entries(plan, crc), i);
    WrittenPayload(plan, flags, crc, i);
  }

  lemma UnplannedPayload(plan: seq<Planned>, flags: nat, crc: Checksum, kind: nat)
    requires Plan(plan) && forall i: nat | i < |plan| :: plan[i].kind != kind
    ensures Find(Entries(plan, crc), kind) == None
    ensures Payload(FileOf(plan, flags, crc), Written(plan, flags, crc), kind) == None
  {
    hide FileOf, Start, HeaderOf;
    FindNothing(Entries(plan, crc), kind);
  }

  lemma WrittenChecksums(plan: seq<Planned>, flags: nat, crc: Checksum)
    requires ValidPlan(plan, flags) && Is32BitChecksum(crc)
    ensures ChecksumsMatch(FileOf(plan, flags, crc), crc, Entries(plan, crc))
  {
    hide FileOf, Start;
    forall i: nat | i < |plan|
      ensures Start(plan, i) + |plan[i].payload| <= |FileOf(plan, flags, crc)|
      ensures crc(FileOf(plan, flags, crc)[Start(plan, i)..Start(plan, i) + |plan[i].payload|]) == crc(plan[i].payload)
    {
      WrittenPayload(plan, flags, crc, i);
    }
  }

  // ----- each part of a written file is read back -----

  ghost predicate HasLevel(s: IndexState) {
    s.config.maxLevelCap <= MAX_LEVEL_CAP
  }

  /** What the reader asks of the entry point: a node of the highest level there is, or none if there is no node. */
  ghost predicate HasTopEntry(s: IndexState)
    requires Marked(s) <= |s.labels| && HasEncoding(s)
  {
    s.graph.Some? ==> Codec.EntryOk(Codec.LevelsOf(s.graph.value.nodes), ShapeOf(MetaOf(s)))
  }

  ghost function FileFor(s: IndexState, w: World): seq<Byte>
    requires Marked(s) <= |s.labels| && HasEncoding(s)
  {
    FileOf(PlanOf(s), FlagsOf(s), w.crc)
  }

  ghost function ParsedFor(s: IndexState, w: World): ParsedFile
    requires Marked(s) <= |s.labels| && HasEncoding(s)
  {
    Written(PlanOf(s), FlagsOf(s), w.crc)
  }

  lemma PlanIsValid(s: IndexState, w: World)
    requires w.nodesPerChunk > 0 && Saveable(s, w)
    ensures ValidPlan(PlanOf(s), FlagsOf(s))
  {
    hide EncodeMetadata, MetaOf, Bytes, WordBytes, GraphOf, FileSize, Tombstones.Marks, Ids.Restorable, Decoder.Storable, Codec.KeptGraph;
    var plan, t, g := PlanOf(s), TombstonePlan(s), GraphPlan(s);
    assert |t| <= 1 && (g == [] || |g| == 4);
    forall i: nat | i < |plan|
      ensures Known(plan[i].kind) && plan[i].alignment > 0 && plan[i].alignment % ALIGNMENT == 0
      ensures plan[i].kind == KindAt(s, i)
    {
    }
    forall i: nat, j: nat | i < j < |plan|
      ensures plan[i].kind != plan[j].kind
    {
      assert KindAt(s, i) != KindAt(s, j);
    }
  }

  /** The kind of the section at place `i` of the plan. */
  ghost function KindAt(s: IndexState, i: nat): nat {
    var t := if Marked(s) != 0 then 1 else 0;
    var g := if s.graph.Some? then 4 else 0;
    if i == 0 then METADATA else if i == 1 then LABELS
    else if i < 2 + t then TOMBSTONES
    else if i < 2 + t + g then LEVELS + (i - 2 - t)
    else VECTORS
  }

  /** Where a section of the plan is. */
  ghost predicate PlannedAt(s: IndexState, i: nat, kind: nat, payload: seq<Byte>)
    requires Marked(s) <= |s.labels| && HasEncoding(s)
  {
    i < |PlanOf(s)| && PlanOf(s)[i].kind == kind && PlanOf(s)[i].payload == payload
  }

  lemma Places(s: IndexState)
    requires Marked(s) <= |s.labels| && HasEncoding(s)
    ensures PlannedAt(s, 0, METADATA, EncodeMetadata(MetaOf(s))) && PlannedAt(s, 1, LABELS, Bytes(s.labels, 8))
    ensures PlannedAt(s, |PlanOf(s)| - 1, VECTORS, s.vectors)
    ensures PlanOf(s)[|PlanOf(s)| - 1].alignment == VECTOR_ALIGNMENT
    ensures Marked(s) != 0 ==> PlannedAt(s, 2, TOMBSTONES, WordBytes(s.deleted))
    ensures s.graph.Some? ==>
              var k := 2 + |TombstonePlan(s)|;
              && PlannedAt(s, k, LEVELS, GraphOf(s).levels) && PlannedAt(s, k + 1, L0_LINKS, GraphOf(s).base)
              && PlannedAt(s, k + 2, UPPER_INDEX, GraphOf(s).index) && PlannedAt(s, k + 3, UPPER_LINKS, GraphOf(s).upper)
    ensures Marked(s) == 0 ==> forall i: nat | i < |PlanOf(s)| :: PlanOf(s)[i].kind != TOMBSTONES
    ensures s.graph.None? ==> forall i: nat | i < |PlanOf(s)| :: PlanOf(s)[i].kind < LEVELS
  {
    hide EncodeMetadata, MetaOf, Bytes, WordBytes, GraphOf, Tombstones.Marks;
  }

  /** The sections a reader will find in the file of a state. */
  ghost predicate RequiredThere(s: IndexState, file: seq<Byte>, p: ParsedFile)
    requires Marked(s) <= |s.labels|
  {
    && Payload(file, p, METADATA) == Some(EncodeMetadata(MetaOf(s)))
    && Payload(file, p, LABELS) == Some(Bytes(s.labels, 8))
    && Payload(file, p, VECTORS) == Some(s.vectors)
    && Has(p, VECTORS) && Find(p.entries, VECTORS).value.offset % VECTOR_ALIGNMENT == 0
  }

  ghost predicate TombstonesThere(s: IndexState, file: seq<Byte>, p: ParsedFile) {
    && Payload(file, p, TOMBSTONES) == (if Marked(s) != 0 then Some(WordBytes(s.deleted)) else None)
    && (Has(p, TOMBSTONES) <==> Marked(s) != 0)
  }

  ghost predicate GraphThere(s: IndexState, file: seq<Byte>, p: ParsedFile)
    requires HasEncoding(s)
  {
    && (s.graph.Some? ==> GraphSections(file, p) == GraphOf(s))
    && (Has(p, LEVELS) <==> s.graph.Some?) && (Has(p, L0_LINKS) <==> s.graph.Some?)
    && (Has(p, UPPER_INDEX) <==> s.graph.Some?) && (Has(p, UPPER_LINKS) <==> s.graph.Some?)
  }

  lemma PlacedPayload(s: IndexState, w: World, i: nat, kind: nat, payload: seq<Byte>)
    requires w.nodesPerChunk > 0 && Saveable(s, w) && ValidPlan(PlanOf(s), FlagsOf(s)) && PlannedAt(s, i, kind, payload)
    ensures Find(ParsedFor(s, w).entries, kind) == Some(EntryOf(PlanOf(s), i, w.crc))
    ensures Payload(FileFor(s, w), ParsedFor(s, w), kind) == Some(payload)
  {
    hide PlanOf, FlagsOf, ValidPlan, Saveable, Payload, Find, FileOf, Entries, HeaderOf;
    Checksummed(s, w);
    PlanOnly(PlanOf(s), FlagsOf(s));
    PlannedPayload(PlanOf(s), FlagsOf(s), w.crc, i);
  }

  lemma PlanOnly(plan: seq<Planned>, flags: nat)
    requires ValidPlan(plan, flags)
    ensures Plan(plan)
  {
  }

  lemma Checksummed(s: IndexState, w: World)
    requires w.nodesPerChunk > 0 && Saveable(s, w)
    ensures Is32BitChecksum(w.crc) && Marked(s) <= |s.labels| && HasEncoding(s)
  {
  }

  lemma AbsentPayload(s: IndexState, w: World, kind: nat)
    requires w.nodesPerChunk > 0 && Saveable(s, w) && ValidPlan(PlanOf(s), FlagsOf(s))
    requires forall i: nat | i < |PlanOf(s)| :: PlanOf(s)[i].kind != kind
    ensures !Has(ParsedFor(s, w), kind) && Payload(FileFor(s, w), ParsedFor(s, w), kind) == None
  {
    UnplannedPayload(PlanOf(s), FlagsOf(s), w.crc, kind);
  }

  lemma AlignedStart(plan: seq<Planned>, i: nat)
    requires Plan(plan) && i < |plan|
    ensures Start(plan, i) % plan[i].alignment == 0
  {
  }

  lemma WrittenRequired(s: IndexState, w: World)
    requires w.nodesPerChunk > 0 && Saveable(s, w) && ValidPlan(PlanOf(s), FlagsOf(s))
    ensures RequiredThere(s, FileFor(s, w), ParsedFor(s, w))
  {
    hide PlanOf, FlagsOf, Saveable, Payload, Find, FileOf, MetaOf, GraphOf, TombstonePlan, Start, ValidPlan, Entries, HeaderOf;
    Checksummed(s, w);
    Places(s);
    var n := |PlanOf(s)| - 1;
    PlacedPayload(s, w, 0, METADATA, EncodeMetadata(MetaOf(s)));
    PlacedPayload(s, w, 1, LABELS, Bytes(s.labels, 8));
    PlacedPayload(s, w, n, VECTORS, s.vectors);
    AlignedStart(PlanOf(s), n);
  }

  lemma WrittenTombstones(s: IndexState, w: World)
    requires w.nodesPerChunk > 0 && Saveable(s, w) && ValidPlan(PlanOf(s), FlagsOf(s))
    ensures TombstonesThere(s, FileFor(s, w), ParsedFor(s, w))
  {
    hide PlanOf, FlagsOf, Saveable, Payload, Find, FileOf, MetaOf, GraphOf, TombstonePlan, Start, ValidPlan, Entries, HeaderOf;
    Checksummed(s, w);
    Places(s);
    if Marked(s) != 0 {
      PlacedPayload(s, w, 2, TOMBSTONES, WordBytes(s.deleted));
    } else {
      AbsentPayload(s, w, TOMBSTONES);
    }
  }

  lemma WrittenGraph(s: IndexState, w: World)
    requires w.nodesPerChunk > 0 && Saveable(s, w) && ValidPlan(PlanOf(s), FlagsOf(s))
    ensures GraphThere(s, FileFor(s, w), ParsedFor(s, w))
  {
    hide PlanOf, FlagsOf, Saveable, Payload, Find, FileOf, MetaOf, GraphOf, TombstonePlan, Start, ValidPlan, Entries, HeaderOf;
    hide PlannedAt, FileFor, ParsedFor;
    Checksummed(s, w);
    Places(s);
    if s.graph.Some? {
      WrittenSections(s, w);
    } else {
      AbsentPayload(s, w, LEVELS);
      AbsentPayload(s, w, L0_LINKS);
      AbsentPayload(s, w, UPPER_INDEX);
      AbsentPayload(s, w, UPPER_LINKS);
    }
  }

  lemma WrittenSections(s: IndexState, w: World)
    requires w.nodesPerChunk > 0 && Saveable(s, w) && ValidPlan(PlanOf(s), FlagsOf(s)) && s.graph.Some?
    ensures GraphThere(s, FileFor(s, w), ParsedFor(s, w))
  {
    hide PlanOf, FlagsOf, Saveable, Payload, Find, FileOf, MetaOf, GraphOf, TombstonePlan, Start, ValidPlan, Entries, HeaderOf;
    hide PlannedAt, FileFor, ParsedFor, EntryOf, GraphThere;
    Checksummed(s, w);
    Places(s);
    var k := 2 + |TombstonePlan(s)|;
    PlacedPayload(s, w, k, LEVELS, GraphOf(s).levels);
    PlacedPayload(s, w, k + 1, L0_LINKS, GraphOf(s).base);
    PlacedPayload(s, w, k + 2, UPPER_INDEX, GraphOf(s).index);
    PlacedPayload(s, w, k + 3, UPPER_LINKS, GraphOf(s).upper);
    GraphFromPayloads(s, FileFor(s, w), ParsedFor(s, w));
  }

  lemma GraphFromPayloads(s: IndexState, file: seq<Byte>, p: ParsedFile)
    requires HasEncoding(s) && s.graph.Some?
    requires Payload(file, p, LEVELS) == Some(GraphOf(s).levels) && Payload(file, p, L0_LINKS) == Some(GraphOf(s).base)
    requires Payload(file, p, UPPER_INDEX) == Some(GraphOf(s).index)
    requires Payload(file, p, UPPER_LINKS) == Some(GraphOf(s).upper)
    ensures GraphThere(s, file, p)
  {
    hide GraphOf, Find;
  }

  // ----- reading back -----

  lemma EntryInRange(s: IndexState, w: World)
    requires w.nodesPerChunk > 0 && Saveable(s, w) && s.graph.Some?
    ensures var g := s.graph.value;
            && (g.entryPoint == Codec.EMPTY_SLOT || g.entryPoint < MAX_ROWS) && g.entryLevel <= s.config.maxLevelCap
            && |g.nodes| == |s.labels|
  {
    hide Codec.NodeOk, Tombstones.Marks, Ids.Restorable, Decoder.Storable;
    var levels := Codec.LevelsOf(s.graph.value.nodes);
    assert |levels| == |s.graph.value.nodes| == |s.labels|;
    if s.graph.value.entryPoint != Codec.EMPTY_SLOT {
      assert levels[s.graph.value.entryPoint] <= s.config.maxLevelCap;
    }
  }

  lemma MetaOfFits(s: IndexState, w: World)
    requires w.nodesPerChunk > 0 && Saveable(s, w)
    ensures MetaFits(MetaOf(s))
  {
    hide Power, Tombstones.Marks, Ids.Restorable, Decoder.Storable, Codec.KeptGraph, PlanOf, FileSize, HasEncoding;
    Powers();
    if s.graph.Some? {
      EntryInRange(s, w);
    }
    var f, wd := MetaFields(MetaOf(s)), MetaWidths();
    assert f[0] < Power(wd[0]) && f[1] < Power(wd[1]) && f[2] < Power(wd[2]) && f[3] < Power(wd[3]) && f[4] < Power(wd[4]);
    assert f[5] < Power(wd[5]) && f[6] < Power(wd[6]) && f[7] < Power(wd[7]) && f[8] < Power(wd[8]) && f[9] < Power(wd[9]);
    assert f[10] < Power(wd[10]) && f[11] < Power(wd[11]) && f[12] < Power(wd[12]) && f[13] < Power(wd[13]);
    assert f[14] < Power(wd[14]) && f[15] < Power(wd[15]) && f[16] < Power(wd[16]) && f[17] < Power(wd[17]);
  }

  /** The only metadata check a creatable, saved state can fail is the level cap. */
  lemma MetaOfOk(s: IndexState, w: World)
    requires w.nodesPerChunk > 0 && Saveable(s, w)
    ensures MetaOk(MetaOf(s), FlagsOf(s)) <==> HasLevel(s)
  {
    hide Tombstones.Marks, Ids.Restorable, Decoder.Storable, Codec.KeptGraph, PlanOf, FileSize, HasEncoding;
    if s.graph.Some? {
      EntryInRange(s, w);
    }
  }

  lemma WrittenSectionsOk(s: IndexState, w: World)
    requires w.nodesPerChunk > 0 && Saveable(s, w)
    ensures ValidPlan(PlanOf(s), FlagsOf(s)) && IsParsed(FileFor(s, w), w.crc, ParsedFor(s, w))
    ensures SectionsOk(FileFor(s, w), w.crc, ParsedFor(s, w)) && ParsedFor(s, w).header.flags == FlagsOf(s)
    ensures RequiredThere(s, FileFor(s, w), ParsedFor(s, w)) && TombstonesThere(s, FileFor(s, w), ParsedFor(s, w))
    ensures GraphThere(s, FileFor(s, w), ParsedFor(s, w))
  {
    hide PlanOf, Saveable, FileOf, ValidPlan, Entries, IsParsed, ChecksumsMatch, RequiredThere, TombstonesThere, GraphThere, SectionsOk, FlagsOf;
    Checksummed(s, w);
    PlanIsValid(s, w);
    WrittenRequired(s, w);
    WrittenTombstones(s, w);
    WrittenGraph(s, w);
    WrittenChecksums(PlanOf(s), FlagsOf(s), w.crc);
    WrittenParses(PlanOf(s), FlagsOf(s), w.crc);
    SectionsTogether(s, FileFor(s, w), w.crc, ParsedFor(s, w));
  }

  lemma SectionsTogether(s: IndexState, file: seq<Byte>, crc: Checksum, p: ParsedFile)
    requires Marked(s) <= |s.labels| && HasEncoding(s) && p.header.flags == FlagsOf(s)
    requires RequiredThere(s, file, p) && TombstonesThere(s, file, p) && GraphThere(s, file, p)
    requires ChecksumsMatch(file, crc, p.entries)
    ensures SectionsOk(file, crc, p)
  {
    hide Payload, MetaOf, EncodeMetadata, GraphOf, GraphSections, ChecksumsMatch, Marked, HasEncoding, Bytes, WordBytes;
  }

  lemma RowsReadBack(s: IndexState, w: World)
    requires w.nodesPerChunk > 0 && Saveable(s, w)
    requires RequiredThere(s, FileFor(s, w), ParsedFor(s, w)) && TombstonesThere(s, FileFor(s, w), ParsedFor(s, w))
    ensures RowsRead(FileFor(s, w), ParsedFor(s, w), MetaOf(s), s.labels, s.deleted)
    ensures VectorsRead(FileFor(s, w), w, ParsedFor(s, w), MetaOf(s), s.vectors)
  {
    hide PlanOf, Payload, FileOf, EncodeMetadata, Tombstones.Marks, Ids.Restorable, Bytes, WordBytes, FileSize;
    if Marked(s) == 0 {
      assert Tombstones.Marks(s.deleted) == {};
      Tombstones.NoMarksMeansZero(s.deleted);
    }
  }

  /** The four sections hold the graph, as far as the reader can tell, if and only if the entry point is on top. */
  lemma GraphReadBack(s: IndexState, w: World, other: Option<Stored>)
    requires w.nodesPerChunk > 0 && Saveable(s, w) && GraphThere(s, FileFor(s, w), ParsedFor(s, w))
    ensures HasTopEntry(s) ==> GraphRead(w, GraphSections(FileFor(s, w), ParsedFor(s, w)), MetaOf(s), s.graph)
    ensures !HasTopEntry(s) ==> !GraphRead(w, GraphSections(FileFor(s, w), ParsedFor(s, w)), MetaOf(s), other)
  {
    hide PlanOf, Payload, FileOf, Tombstones.Marks, Ids.Restorable, FileSize, Codec.NodeOk, Decoder.Laid, Codec.EntryOk;
    hide Codec.BaseWords, Codec.UpperWords, Codec.IndexWords;
    if s.graph.Some? && other.Some? && Decoder.Encodes(other.value.nodes, ShapeOf(MetaOf(s)), GraphOf(s)) {
      assert Codec.LevelsOf(other.value.nodes) == GraphOf(s).levels == Codec.LevelsOf(s.graph.value.nodes);
    }
  }

  /** A saved state with a level cap within the limit and its entry point on top reads back as itself. */
  lemma WrittenIsRead(s: IndexState, w: World)
    requires w.nodesPerChunk > 0 && Saveable(s, w) && HasLevel(s) && HasTopEntry(s)
    ensures Holds(FileFor(s, w), w, ParsedFor(s, w), MetaOf(s), s)
  {
    hide Saveable, Payload, IsParsed, SectionsOk, MetaOk, RowsRead, VectorsRead, GraphRead, EncodeMetadata, DecodeMetadata;
    hide FileFor, ParsedFor, FlagsOf, PlanOf, Marked, TombstonesThere, GraphThere, HasTopEntry;
    Checksummed(s, w);
    WrittenSectionsOk(s, w);
    MetaOfFits(s, w);
    MetaOfOk(s, w);
    MetadataRoundTrip(MetaOf(s));
    RowsReadBack(s, w);
    GraphReadBack(s, w, None);
  }

  /** The file of a state whose cap is too high, or that has a row above its entry point, holds no state at all. */
  lemma OthersAreRefused(s: IndexState, w: World, p: ParsedFile, m: Metadata, other: IndexState)
    requires w.nodesPerChunk > 0 && Saveable(s, w) && (!HasLevel(s) || !HasTopEntry(s))
    ensures !Holds(FileFor(s, w), w, p, m, other)
  {
    hide Saveable, Payload, SectionsOk, MetaOk, RowsRead, VectorsRead, GraphRead, EncodeMetadata, DecodeMetadata;
    hide FileFor, FlagsOf, PlanOf, Marked, TombstonesThere, GraphThere, HasTopEntry;
    Checksummed(s, w);
    WrittenSectionsOk(s, w);
    MetaOfFits(s, w);
    MetaOfOk(s, w);
    MetadataRoundTrip(MetaOf(s));
    GraphReadBack(s, w, other.graph);
    if Accepted(FileFor(s, w), w, p, m) {
      ParsedOnce(FileFor(s, w), w.crc, p, ParsedFor(s, w));
    }
  }

  lemma ParsedOnce(file: seq<Byte>, crc: Checksum, p: ParsedFile, q: ParsedFile)
    requires IsParsed(file, crc, p) && IsParsed(file, crc, q)
    ensures p == q
  {
    hide DecodeHeader, EntryAt;
    AgreeSoFar(TableOf(file, p.header), p.entries, q.entries);
  }

  /**
    * Writing a state and reading the file gives the state back if and only if its level cap is within the reader's
    * limit and no node lies above its entry point; otherwise the file is refused. Creation enforces the cap for graph
    * indexes only, so that exception is a flat index; the other one is a graph with a link that failed.
    */
  method WriteThenRead(s: IndexState, w: World, file: seq<Byte>) returns (r: Option<IndexState>)
    requires w.nodesPerChunk > 0 && Saveable(s, w) && file == FileFor(s, w) && |file| < SIZE_LIMIT
    ensures r == Some(s) <==> s.config.maxLevelCap <= MAX_LEVEL_CAP && HasTopEntry(s)
    ensures r == Some(s) || r == None
    ensures s.config.maxLevelCap > MAX_LEVEL_CAP ==> s.config.indexType == FLAT
  {
    hide Saveable, Holds, FileFor, HasTopEntry;
    Checksummed(s, w);
    CapMeansFlat(s, w);
    if HasLevel(s) && HasTopEntry(s) {
      WrittenIsRead(s, w);
    } else {
      forall p, m, other
        ensures !Holds(file, w, p, m, other)
      {
        OthersAreRefused(s, w, p, m, other);
      }
    }
    r := ReadIndex(file, w);
  }

  lemma CapMeansFlat(s: IndexState, w: World)
    requires w.nodesPerChunk > 0 && Saveable(s, w)
    ensures s.config.maxLevelCap > MAX_LEVEL_CAP ==> s.config.indexType == FLAT
  {
  }

  /** An empty flat collection that can be created and saved, but whose file the reader refuses. */
  function HighCapExample(): IndexState {
    IndexState(Config(1, 0, FLAT, false, 16, 200, 50, MAX_LEVEL_CAP + 1, 0), [], 0, [], [], [], None)
  }

  /** Sections of moderate size make a file of moderate size. */
  lemma {:induction false} SmallSections(plan: seq<Planned>, n: nat, limit: nat)
    requires Plan(plan) && n <= |plan|
    requires forall i: nat | i < |plan| :: plan[i].alignment <= VECTOR_ALIGNMENT && |plan[i].payload| <= limit
    ensures End(plan, n) <= HEADER_SIZE + n * (VECTOR_ALIGNMENT + limit)
  {
    hide AlignUp;
    if n > 0 {
      SmallSections(plan, n - 1, limit);
    }
  }

  lemma SmallPlan(plan: seq<Planned>)
    requires Plan(plan) && |plan| <= 8
    requires forall i: nat | i < |plan| :: plan[i].alignment <= VECTOR_ALIGNMENT && |plan[i].payload| <= 1000
    ensures FileSize(plan) < SIZE_LIMIT
  {
    hide AlignUp, End;
    SmallSections(plan, |plan|, 1000);
  }

  lemma HighCapExampleIsSaveable(w: World)
    requires w.nodesPerChunk > 0 && w.componentsOk([]) && Is32BitChecksum(w.crc)
    ensures Saveable(HighCapExample(), w) && !HasLevel(HighCapExample())
  {
    hide EncodeMetadata, MetaOf, FileSize;
    var s := HighCapExample();
    assert Tombstones.Marks([]) == {};
    assert Tombstones.Marks(s.deleted) == {};
    assert FileSize(PlanOf(s)) < SIZE_LIMIT by {
      assert TombstonePlan(s) == [] && GraphPlan(s) == [];
      var plan := PlanOf(s);
      assert plan == FirstPlan(s) + LastPlan(s);
      assert Bytes(s.labels, 8) == [];
      assert |plan[0].payload| == META_FIXED + 8 by { ExampleMetadata(s); }
      SmallPlan(plan);
    }
  }

  lemma ExampleMetadata(s: IndexState)
    requires Marked(s) <= |s.labels| && s.creator == []
    ensures |EncodeMetadata(MetaOf(s))| == META_FIXED + 8
  {
    hide EncodeMetadata;
  }
}
