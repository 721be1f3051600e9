/**
  * The index file as a container of sections: the writer's layout and emission, the reader's header and section
  * table checks, and the proof that reading what was written gives the same sections.
  */
module IndexContainer {
  import opened Arithmetic
  import opened Options
  import opened LittleEndian
  import opened Regions
  import opened FileFormat

  /** A section to be written: its type, its bytes, and the alignment of its offset. */
  datatype Planned = Planned(kind: nat, payload: seq<Byte>, alignment: nat)

  // ----- layout -----

  function AlignUp(p: nat, alignment: nat): (q: nat)
    requires alignment > 0
    ensures p <= q < p + alignment && q % alignment == 0
  {
    if p % alignment == 0 then p else Aligned(p, alignment); p + alignment - p % alignment
  }

  lemma Aligned(p: nat, alignment: nat)
    requires alignment > 0
    ensures (p + alignment - p % alignment) % alignment == 0
  {
    var q, r := p / alignment, p % alignment;
    assert p + alignment - r == (q + 1) * alignment;
    Multiple(q + 1, alignment);
  }

  lemma Multiple(q: nat, n: nat)
    requires n > 0
    ensures (q * n) % n == 0
  {
    DivMod(n, q, 0);
  }

  ghost predicate Plan(plan: seq<Planned>) {
    forall i: nat | i < |plan| :: plan[i].alignment > 0
  }

  /** Position after the first `n` sections. */
  function End(plan: seq<Planned>, n: nat): (p: nat)
    requires n <= |plan| && Plan(plan)
    ensures p >= HEADER_SIZE
    decreases n, 0
  {
    if n == 0 then HEADER_SIZE else Start(plan, n - 1) + |plan[n - 1].payload|
  }

  function Start(plan: seq<Planned>, i: nat): nat
    requires i < |plan| && Plan(plan)
    decreases i, 1
  {
    AlignUp(End(plan, i), plan[i].alignment)
  }

  function TableOffset(plan: seq<Planned>): nat
    requires Plan(plan)
  {
    AlignUp(End(plan, |plan|), ALIGNMENT)
  }

  function FileSize(plan: seq<Planned>): nat
    requires Plan(plan)
  {
    TableOffset(plan) + ENTRY_SIZE * |plan|
  }

  // ----- emission -----

  function Zeros(n: nat): (z: seq<Byte>)
    ensures |z| == n
  {
    seq(n, _ => 0)
  }

  /** The file after the first `n` sections, its header still zero. */
  function Body(plan: seq<Planned>, n: nat): (b: seq<Byte>)
    requires n <= |plan| && Plan(plan)
    ensures |b| == End(plan, n)
  {
    if n == 0 then Zeros(HEADER_SIZE)
    else Body(plan, n - 1) + Zeros(Start(plan, n - 1) - End(plan, n - 1)) + plan[n - 1].payload
  }

  function EntryOf(plan: seq<Planned>, i: nat, crc: Checksum): Entry
    requires i < |plan| && Plan(plan)
  {
    Entry(plan[i].kind, 0, Start(plan, i), |plan[i].payload|, crc(plan[i].payload))
  }

  function Entries(plan: seq<Planned>, crc: Checksum): (es: seq<Entry>)
    requires Plan(plan)
    ensures |es| == |plan|
  {
    seq(|plan|, i requires 0 <= i < |plan| && Plan(plan) => EntryOf(plan, i, crc))
  }

  function HeaderOf(plan: seq<Planned>, flags: nat, crc: Checksum): Header
    requires Plan(plan)
  {
    Header(FORMAT_MINOR, flags, FileSize(plan), TableOffset(plan), |plan|, crc(EncodeTable(Entries(plan, crc))))
  }

  /** The file as first written, its header still zero. */
  function Unsealed(plan: seq<Planned>, crc: Checksum): (b: seq<Byte>)
    requires Plan(plan)
    ensures |b| == FileSize(plan)
  {
    Body(plan, |plan|) + Zeros(TableOffset(plan) - End(plan, |plan|)) + EncodeTable(Entries(plan, crc))
  }

  /** A whole file: the header is written last, over its place at the start. */
  function FileOf(plan: seq<Planned>, flags: nat, crc: Checksum): seq<Byte>
    requires Plan(plan)
  {
    EncodeHeader(HeaderOf(plan, flags, crc), crc) + Unsealed(plan, crc)[HEADER_SIZE..]
  }

  lemma {:induction false} EndGrows(plan: seq<Planned>, i: nat, n: nat)
    requires i <= n <= |plan| && Plan(plan)
    ensures HEADER_SIZE <= End(plan, i) <= End(plan, n)
    ensures i < n ==> End(plan, i) <= Start(plan, i) && Start(plan, i) + |plan[i].payload| <= End(plan, n)
    decreases n
  {
    if i < n {
      EndGrows(plan, i, n - 1);
    } else if n > 0 {
      EndGrows(plan, n - 1, n - 1);
    }
  }

  lemma {:induction false} BodyPrefix(plan: seq<Planned>, i: nat, n: nat)
    requires i <= n <= |plan| && Plan(plan)
    ensures End(plan, i) <= End(plan, n) && Body(plan, n)[..End(plan, i)] == Body(plan, i)
    decreases n
  {
    if i < n {
      BodyPrefix(plan, i, n - 1);
      EndGrows(plan, i, n - 1);
      EndGrows(plan, n - 1, n);
      BodyExtends(plan, n - 1);
      SliceOfPrefix(Body(plan, n), Body(plan, n - 1), 0, End(plan, i));
    }
  }

  lemma BodyExtends(plan: seq<Planned>, i: nat)
    requires i < |plan| && Plan(plan)
    ensures End(plan, i) <= Start(plan, i) <= Start(plan, i) + |plan[i].payload| == End(plan, i + 1)
    ensures Body(plan, i + 1)[..End(plan, i)] == Body(plan, i)
    ensures Body(plan, i + 1)[Start(plan, i)..] == plan[i].payload
  {
    hide AlignUp;
    var gap := Zeros(Start(plan, i) - End(plan, i));
    Joined(Body(plan, i), gap, plan[i].payload);
  }

  lemma Joined(a: seq<Byte>, b: seq<Byte>, c: seq<Byte>)
    ensures (a + b + c)[..|a|] == a && (a + b + c)[|a| + |b|..] == c
  {
  }

  lemma SliceOfPrefix(whole: seq<Byte>, prefix: seq<Byte>, lo: nat, hi: nat)
    requires |prefix| <= |whole| && whole[..|prefix|] == prefix && lo <= hi <= |prefix|
    ensures whole[lo..hi] == prefix[lo..hi]
  {
    forall i: nat | i < hi - lo
      ensures whole[lo..hi][i] == prefix[lo..hi][i]
    {
      assert whole[..|prefix|][lo + i] == whole[lo + i];
    }
  }

  /** Each section's bytes are where its entry says. */
  lemma PayloadInBody(plan: seq<Planned>, i: nat, n: nat)
    requires i < n <= |plan| && Plan(plan)
    ensures HEADER_SIZE <= Start(plan, i) && Start(plan, i) + |plan[i].payload| <= End(plan, n)
    ensures Body(plan, n)[Start(plan, i)..Start(plan, i) + |plan[i].payload|] == plan[i].payload
  {
    hide Body, Start;
    EndGrows(plan, i, n);
    EndGrows(plan, i + 1, n);
    BodyPrefix(plan, i + 1, n);
    BodyExtends(plan, i);
    SliceOfPrefix(Body(plan, n), Body(plan, i + 1), Start(plan, i), End(plan, i + 1));
  }

  /** A byte of the body is zero, or belongs to a section. */
  lemma {:induction false} BodyPadding(plan: seq<Planned>, n: nat, x: nat)
    requires n <= |plan| && Plan(plan) && x < End(plan, n)
    ensures Body(plan, n)[x] == 0 || exists i: nat :: i < n && InPayload(plan, i, x)
  {
    if n > 0 {
      EndGrows(plan, n - 1, n);
      if x < End(plan, n - 1) {
        BodyPadding(plan, n - 1, x);
        if Body(plan, n - 1)[x] != 0 {
          var i: nat :| i < n - 1 && InPayload(plan, i, x);
          assert i < n && InPayload(plan, i, x);
        }
      } else if x >= Start(plan, n - 1) {
        assert InPayload(plan, n - 1, x);
      }
    }
  }

  predicate InPayload(plan: seq<Planned>, i: nat, x: nat)
    requires Plan(plan)
  {
    i < |plan| && Start(plan, i) <= x < Start(plan, i) + |plan[i].payload|
  }

  // ----- reading the header and the section table -----

  const MAX_KIND: nat := 8

  datatype ParsedFile = ParsedFile(header: Header, entries: seq<Entry>)

  predicate Known(kind: nat) {
    0 < kind <= MAX_KIND
  }

  /** In bounds, aligned, with known flags; an unknown type must be marked optional. */
  predicate EntryOk(file: seq<Byte>, e: Entry) {
    && HEADER_SIZE <= e.offset && e.offset + e.size <= |file| && e.offset % ALIGNMENT == 0
    && e.flags <= 1 && (Known(e.kind) || e.flags == 1)
  }

  predicate KindsDistinct(entries: seq<Entry>) {
    forall i: nat, j: nat | i < j < |entries| && Known(entries[i].kind) :: entries[i].kind != entries[j].kind
  }

  predicate HeaderOk(file: seq<Byte>, h: Header) {
    && h.fileSize == |file| && h.flags < KNOWN_FLAGS && 1 <= h.sectionCount <= MAX_SECTIONS
    && HEADER_SIZE <= h.tableOffset && h.tableOffset + ENTRY_SIZE * h.sectionCount <= |file|
    && h.tableOffset % ALIGNMENT == 0
  }

  function TableOf(file: seq<Byte>, h: Header): seq<Byte>
    requires HeaderOk(file, h)
  {
    file[h.tableOffset..h.tableOffset + ENTRY_SIZE * h.sectionCount]
  }

  function EntryRegion(e: Entry): Region {
    Region(e.offset, e.offset + e.size)
  }

  function TableRegion(h: Header): Region {
    Region(h.tableOffset, h.tableOffset + ENTRY_SIZE * h.sectionCount)
  }

  /** Header, sections, table. */
  function RegionsOf(p: ParsedFile): seq<Region> {
    [Region(0, HEADER_SIZE)] + seq(|p.entries|, i requires 0 <= i < |p.entries| => EntryRegion(p.entries[i]))
      + [TableRegion(p.header)]
  }

  ghost predicate TableDecodes(table: seq<Byte>, entries: seq<Entry>) {
    forall i: nat | i < |entries| :: ENTRY_SIZE * i + ENTRY_SIZE <= |table| && EntryAt(table, i) == Some(entries[i])
  }

  ghost predicate EntriesOk(file: seq<Byte>, entries: seq<Entry>) {
    forall i: nat | i < |entries| :: EntryOk(file, entries[i])
  }

  /** What the reader accepts, and as what. */
  ghost predicate IsParsed(file: seq<Byte>, crc: Checksum, p: ParsedFile) {
    && |file| >= HEADER_SIZE && DecodeHeader(file[..HEADER_SIZE], crc) == Some(p.header)
    && HeaderOk(file, p.header) && crc(TableOf(file, p.header)) == p.header.tableCrc
    && |p.entries| == p.header.sectionCount && TableDecodes(TableOf(file, p.header), p.entries)
    && EntriesOk(file, p.entries) && KindsDistinct(p.entries)
    && AllApart(RegionsOf(p)) && RestIsZero(file, RegionsOf(p))
  }

  /** Reads the entries of a table in order, with their checks; `seen` marks the known types met so far. */
  method ParseTable(file: seq<Byte>, table: seq<Byte>, count: nat) returns (r: Option<seq<Entry>>)
    requires |table| == ENTRY_SIZE * count
    ensures r.Some? ==> |r.value| == count && TableDecodes(table, r.value) && EntriesOk(file, r.value) && KindsDistinct(r.value)
    ensures forall es: seq<Entry> | |es| == count && TableDecodes(table, es) && EntriesOk(file, es) && KindsDistinct(es) ::
              r == Some(es)
  {
    hide DecodeEntry;
    var entries: seq<Entry> := [];
    var seen := new bool[MAX_KIND + 1](_ => false);
    while |entries| < count
      invariant |entries| <= count && TableDecodes(table, entries)
      invariant EntriesOk(file, entries) && KindsDistinct(entries)
      invariant forall k: nat | 0 < k <= MAX_KIND :: seen[k] <==> exists i: nat :: i < |entries| && entries[i].kind == k
    {
      var i := |entries|;
      var decoded := EntryAt(table, i);
      if decoded.None? {
        return None;
      }
      var e := decoded.value;
      if !EntryOk(file, e) || (Known(e.kind) && seen[e.kind]) {
        forall es: seq<Entry> | |es| == count && TableDecodes(table, es) && EntriesOk(file, es)
          ensures !KindsDistinct(es)
        {
          AgreeSoFar(table, entries, es);
          assert es[i] == e;
          if Known(e.kind) && seen[e.kind] {
            var k: nat :| k < |entries| && entries[k].kind == e.kind;
            assert es[k].kind == es[i].kind;
          }
        }
        return None;
      }
      if Known(e.kind) {
        seen[e.kind] := true;
      }
      entries := entries + [e];
    }
    forall es: seq<Entry> | |es| == count && TableDecodes(table, es)
      ensures es == entries
    {
      AgreeSoFar(table, entries, es);
    }
    return Some(entries);
  }

  lemma AgreeSoFar(table: seq<Byte>, a: seq<Entry>, b: seq<Entry>)
    requires TableDecodes(table, a) && TableDecodes(table, b) && |a| <= |b|
    ensures a <= b
  {
    hide DecodeEntry;
    forall i: nat | i < |a|
      ensures a[i] == b[i]
    {
      assert EntryAt(table, i) == Some(a[i]);
    }
  }

  lemma RegionsInFile(file: seq<Byte>, p: ParsedFile)
    requires |file| >= HEADER_SIZE && HeaderOk(file, p.header) && EntriesOk(file, p.entries)
    ensures forall r <- RegionsOf(p) :: WithinFile(file, r)
  {
    forall r <- RegionsOf(p)
      ensures WithinFile(file, r)
    {
      var k: nat :| k < |RegionsOf(p)| && RegionsOf(p)[k] == r;
      if 0 < k <= |p.entries| {
        assert EntryOk(file, p.entries[k - 1]);
      }
    }
  }

  /** Steps 1 and 2 of reading: header, table, bounds, duplicates, overlaps and padding. */
  method Parse(file: seq<Byte>, crc: Checksum) returns (r: Option<ParsedFile>)
    ensures r.Some? ==> IsParsed(file, crc, r.value)
    ensures forall p | IsParsed(file, crc, p) :: r == Some(p)
  {
    hide DecodeHeader, RegionsOf, EntriesOk, KindsDistinct, TableDecodes;
    if |file| < HEADER_SIZE {
      return None;
    }
    var header := DecodeHeader(file[..HEADER_SIZE], crc);
    if header.None? || !HeaderOk(file, header.value) {
      return None;
    }
    var h := header.value;
    if crc(TableOf(file, h)) != h.tableCrc {
      return None;
    }
    var entries := ParseTable(file, TableOf(file, h), h.sectionCount);
    if entries.None? {
      return None;
    }
    var p := ParsedFile(h, entries.value);
    RegionsInFile(file, p);
    var ok := CheckRegions(file, RegionsOf(p));
    if !ok {
      return None;
    }
    return Some(p);
  }

  // ----- what is written is read back -----

  ghost predicate Is32BitChecksum(crc: Checksum) {
    forall bytes: seq<Byte> :: Is32Bit(crc, bytes)
  }

  /** What the writer's plans satisfy. */
  ghost predicate ValidPlan(plan: seq<Planned>, flags: nat) {
    && Plan(plan) && 1 <= |plan| <= MAX_SECTIONS && flags < KNOWN_FLAGS && FileSize(plan) < SIZE_LIMIT
    && (forall i: nat | i < |plan| :: Known(plan[i].kind) && plan[i].alignment % ALIGNMENT == 0)
    && (forall i: nat, j: nat | i < j < |plan| :: plan[i].kind != plan[j].kind)
  }

  lemma AlignedToEight(q: nat, a: nat)
    requires a > 0 && q % a == 0 && a % ALIGNMENT == 0
    ensures q % ALIGNMENT == 0
  {
    var x, y := q / a, a / ALIGNMENT;
    assert q == x * a && a == y * ALIGNMENT;
    assert x * (y * ALIGNMENT) == (x * y) * ALIGNMENT;
    Multiple(x * y, ALIGNMENT);
  }

  lemma Powers()
    ensures Power(1) == 0x100 && Power(2) == 0x1_0000 && Power(4) == 0x1_0000_0000 && Power(8) == SIZE_LIMIT
  {
    assert Power(2) == 256 * Power(1);
    assert Power(4) == 0x1_0000 * Power(2);
    assert Power(6) == 0x1_0000 * Power(4);
    assert Power(8) == 0x1_0000 * Power(6);
  }

  lemma StartsInFile(plan: seq<Planned>, i: nat)
    requires Plan(plan) && i < |plan|
    ensures HEADER_SIZE <= Start(plan, i) && Start(plan, i) + |plan[i].payload| <= TableOffset(plan) < FileSize(plan)
  {
    EndGrows(plan, i, |plan|);
    EndGrows(plan, i, i);
  }

  lemma WrittenHeaderFits(plan: seq<Planned>, flags: nat, crc: Checksum)
    requires ValidPlan(plan, flags) && Is32BitChecksum(crc)
    ensures HeaderFits(HeaderOf(plan, flags, crc))
  {
    hide Power, Start, EncodeTable;
    Powers();
    assert Is32Bit(crc, EncodeTable(Entries(plan, crc)));
    var f, w := HeaderFields(HeaderOf(plan, flags, crc)), HeaderWidths();
    assert f[0] < Power(w[0]) && f[1] < Power(w[1]) && f[2] < Power(w[2]) && f[3] < Power(w[3]) && f[4] < Power(w[4]);
    assert f[5] < Power(w[5]) && f[6] < Power(w[6]) && f[7] < Power(w[7]) && f[8] < Power(w[8]) && f[9] < Power(w[9]);
  }

  lemma WrittenEntryFits(plan: seq<Planned>, flags: nat, crc: Checksum, i: nat)
    requires ValidPlan(plan, flags) && Is32BitChecksum(crc) && i < |plan|
    ensures EntryFits(EntryOf(plan, i, crc))
  {
    hide Power, Start;
    Powers();
    StartsInFile(plan, i);
    assert Is32Bit(crc, plan[i].payload);
    var f, w := EntryFields(EntryOf(plan, i, crc)), EntryWidths();
    assert f[0] < Power(w[0]) && f[1] < Power(w[1]) && f[2] < Power(w[2]) && f[3] < Power(w[3]) && f[4] < Power(w[4]);
    assert f[5] < Power(w[5]);
  }

  /** Past the header the file is as first written. */
  lemma FilePastHeader(plan: seq<Planned>, flags: nat, crc: Checksum, lo: nat, hi: nat)
    requires ValidPlan(plan, flags) && Is32BitChecksum(crc) && HEADER_SIZE <= lo <= hi <= FileSize(plan)
    ensures |FileOf(plan, flags, crc)| == FileSize(plan)
    ensures FileOf(plan, flags, crc)[lo..hi] == Unsealed(plan, crc)[lo..hi]
  {
    hide Unsealed, EncodeHeader, FileSize;
    WrittenHeader(plan, flags, crc);
    var head, rest := EncodeHeader(HeaderOf(plan, flags, crc), crc), Unsealed(plan, crc);
    assert (head + rest[HEADER_SIZE..])[lo..hi] == rest[lo..hi];
  }

  lemma WrittenHeader(plan: seq<Planned>, flags: nat, crc: Checksum)
    requires ValidPlan(plan, flags) && Is32BitChecksum(crc)
    ensures |EncodeHeader(HeaderOf(plan, flags, crc), crc)| == HEADER_SIZE
    ensures DecodeHeader(EncodeHeader(HeaderOf(plan, flags, crc), crc), crc) == Some(HeaderOf(plan, flags, crc))
  {
    hide HeaderFits, Pack, DecodeHeader, EncodeHeader, HeaderOf;
    var h := HeaderOf(plan, flags, crc);
    WrittenHeaderFits(plan, flags, crc);
    assert Is32Bit(crc, Pack(HeaderFields(h), HeaderWidths()));
    HeaderRoundTrip(h, crc);
  }

  /** Each section's bytes are where its entry says, also in the finished file. */
  lemma WrittenPayload(plan: seq<Planned>, flags: nat, crc: Checksum, i: nat)
    requires ValidPlan(plan, flags) && Is32BitChecksum(crc) && i < |plan|
    ensures Start(plan, i) + |plan[i].payload| <= |FileOf(plan, flags, crc)|
    ensures FileOf(plan, flags, crc)[Start(plan, i)..Start(plan, i) + |plan[i].payload|] == plan[i].payload
  {
    hide Body, Start, EncodeTable, FileOf;
    StartsInFile(plan, i);
    PayloadInBody(plan, i, |plan|);
    FilePastHeader(plan, flags, crc, Start(plan, i), Start(plan, i) + |plan[i].payload|);
    var body := Body(plan, |plan|);
    assert Unsealed(plan, crc)[..|body|] == body;
    SliceOfPrefix(Unsealed(plan, crc), body, Start(plan, i), Start(plan, i) + |plan[i].payload|);
  }

  lemma SuffixOf(a: seq<Byte>, b: seq<Byte>)
    ensures (a + b)[|a|..|a| + |b|] == b
  {
  }

  lemma WrittenTable(plan: seq<Planned>, flags: nat, crc: Checksum)
    requires ValidPlan(plan, flags) && Is32BitChecksum(crc)
    ensures TableOffset(plan) + ENTRY_SIZE * |plan| <= |FileOf(plan, flags, crc)|
    ensures FileOf(plan, flags, crc)[TableOffset(plan)..TableOffset(plan) + ENTRY_SIZE * |plan|] == EncodeTable(Entries(plan, crc))
    ensures TableDecodes(EncodeTable(Entries(plan, crc)), Entries(plan, crc))
  {
    hide HeaderOf, EncodeHeader, AlignUp;
    hide Body, Start, FileOf, EncodeEntry, DecodeEntry;
    EndGrows(plan, 0, |plan|);
    FilePastHeader(plan, flags, crc, TableOffset(plan), FileSize(plan));
    var front := Body(plan, |plan|) + Zeros(TableOffset(plan) - End(plan, |plan|));
    SuffixOf(front, EncodeTable(Entries(plan, crc)));
    assert Unsealed(plan, crc) == front + EncodeTable(Entries(plan, crc));
    var es := Entries(plan, crc);
    forall i: nat | i < |es|
      ensures EntryFits(es[i])
    {
      WrittenEntryFits(plan, flags, crc, i);
    }
    forall i: nat | i < |es|
      ensures ENTRY_SIZE * i + ENTRY_SIZE <= |EncodeTable(es)| && EntryAt(EncodeTable(es), i) == Some(es[i])
    {
      TableRoundTrip(es, i);
    }
  }

  function Written(plan: seq<Planned>, flags: nat, crc: Checksum): ParsedFile
    requires Plan(plan)
  {
    ParsedFile(HeaderOf(plan, flags, crc), Entries(plan, crc))
  }

  lemma WrittenHeaderOk(plan: seq<Planned>, flags: nat, crc: Checksum)
    requires ValidPlan(plan, flags) && Is32BitChecksum(crc)
    ensures HeaderOk(FileOf(plan, flags, crc), HeaderOf(plan, flags, crc))
  {
    hide FileOf, Start;
    EndGrows(plan, 0, |plan|);
    FilePastHeader(plan, flags, crc, HEADER_SIZE, HEADER_SIZE);
  }

  lemma WrittenEntryOk(plan: seq<Planned>, flags: nat, crc: Checksum, i: nat)
    requires ValidPlan(plan, flags) && Is32BitChecksum(crc) && i < |plan|
    ensures EntryOk(FileOf(plan, flags, crc), EntryOf(plan, i, crc))
  {
    hide FileOf;
    StartsInFile(plan, i);
    FilePastHeader(plan, flags, crc, HEADER_SIZE, HEADER_SIZE);
    AlignedToEight(Start(plan, i), plan[i].alignment);
  }

  lemma WrittenApart(plan: seq<Planned>, flags: nat, crc: Checksum)
    requires ValidPlan(plan, flags)
    ensures AllApart(RegionsOf(Written(plan, flags, crc)))
  {
    hide Start, End, TableOffset, EncodeTable;
    var rs, n := RegionsOf(Written(plan, flags, crc)), |plan|;
    forall i: nat, j: nat | i < j < |rs|
      ensures Apart(rs[i], rs[j])
    {
      if i > 0 {
        StartsInFile(plan, i - 1);
        if j <= n {
          EndGrows(plan, i - 1, j - 1);
          EndGrows(plan, j - 1, n);
        }
      } else {
        if j <= n {
          StartsInFile(plan, j - 1);
        } else {
          StartsInFile(plan, 0);
        }
      }
    }
  }

  lemma WrittenPadding(plan: seq<Planned>, flags: nat, crc: Checksum, x: nat)
    requires ValidPlan(plan, flags) && Is32BitChecksum(crc) && x < |FileOf(plan, flags, crc)|
    ensures Covered(RegionsOf(Written(plan, flags, crc)), x) || FileOf(plan, flags, crc)[x] == 0
  {
    hide Start, Body, FileOf, EncodeTable;
    var p, file := Written(plan, flags, crc), FileOf(plan, flags, crc);
    var rs := RegionsOf(p);
    FilePastHeader(plan, flags, crc, HEADER_SIZE, HEADER_SIZE);
    EndGrows(plan, 0, |plan|);
    if x < HEADER_SIZE {
      assert rs[0] in rs && Covers(rs[0], x);
    } else if x >= TableOffset(plan) {
      assert rs[|rs| - 1] == TableRegion(p.header) && Covers(rs[|rs| - 1], x);
    } else {
      FilePastHeader(plan, flags, crc, x, x + 1);
      assert file[x] == file[x..x + 1][0] == Unsealed(plan, crc)[x..x + 1][0] == Unsealed(plan, crc)[x];
      if x < End(plan, |plan|) {
        BodyPadding(plan, |plan|, x);
        if Body(plan, |plan|)[x] != 0 {
          var i: nat :| i < |plan| && InPayload(plan, i, x);
          assert rs[i + 1] == EntryRegion(EntryOf(plan, i, crc)) && Covers(rs[i + 1], x);
        }
      }
    }
  }

  /** The reader accepts every file the writer makes, with the writer's entries. */
  lemma WrittenParses(plan: seq<Planned>, flags: nat, crc: Checksum)
    requires ValidPlan(plan, flags) && Is32BitChecksum(crc)
    ensures IsParsed(FileOf(plan, flags, crc), crc, Written(plan, flags, crc))
  {
    hide FileOf, DecodeHeader, EncodeHeader, EncodeTable, RegionsOf, TableDecodes, EntryOk, Start, TableOffset, AllApart;
    var file, p := FileOf(plan, flags, crc), Written(plan, flags, crc);
    WrittenHeader(plan, flags, crc);
    WrittenHeaderOk(plan, flags, crc);
    HeadOfFile(plan, flags, crc);
    WrittenTable(plan, flags, crc);
    WrittenApart(plan, flags, crc);
    forall i: nat | i < |p.entries|
      ensures EntryOk(file, p.entries[i])
    {
      WrittenEntryOk(plan, flags, crc, i);
    }
    forall x: nat | x < |file|
      ensures Covered(RegionsOf(p), x) || file[x] == 0
    {
      WrittenPadding(plan, flags, crc, x);
    }
  }

  lemma HeadOfFile(plan: seq<Planned>, flags: nat, crc: Checksum)
    requires ValidPlan(plan, flags) && Is32BitChecksum(crc)
    ensures |FileOf(plan, flags, crc)| >= HEADER_SIZE
    ensures FileOf(plan, flags, crc)[..HEADER_SIZE] == EncodeHeader(HeaderOf(plan, flags, crc), crc)
  {
    hide Unsealed, EncodeHeader;
    WrittenHeader(plan, flags, crc);
  }

  // ----- the writer -----

  /** The layout: every section at the next multiple of its alignment. */
  method PlanOffsets(plan: seq<Planned>) returns (offsets: seq<nat>, position: nat)
    requires Plan(plan)
    ensures |offsets| == |plan| && position == End(plan, |plan|)
    ensures forall k: nat | k < |plan| :: offsets[k] == Start(plan, k)
  {
    hide AlignUp;
    offsets, position := [], HEADER_SIZE;
    while |offsets| < |plan|
      invariant |offsets| <= |plan| && position == End(plan, |offsets|)
      invariant forall k: nat | k < |offsets| :: offsets[k] == Start(plan, k)
    {
      var i := |offsets|;
      position := AlignUp(position, plan[i].alignment);
      offsets := offsets + [position];
      position := position + |plan[i].payload|;
    }
  }

  /** Emits the sections behind a zero header. */
  method WriteSections(plan: seq<Planned>, offsets: seq<nat>, crc: Checksum) returns (file: seq<Byte>, entries: seq<Entry>)
    requires Plan(plan) && |offsets| == |plan| && forall k: nat | k < |plan| :: offsets[k] == Start(plan, k)
    ensures file == Body(plan, |plan|) && entries == Entries(plan, crc)
  {
    hide EncodeHeader, AlignUp, Start;
    entries := [];
    file := Zeros(HEADER_SIZE);
    while |entries| < |plan|
      invariant |entries| <= |plan| && file == Body(plan, |entries|)
      invariant forall k: nat | k < |entries| :: entries[k] == EntryOf(plan, k, crc)
    {
      var i := |entries|;
      BodyExtends(plan, i);
      file := file + Zeros(offsets[i] - |file|);
      file := file + plan[i].payload;
      entries := entries + [Entry(plan[i].kind, 0, offsets[i], |plan[i].payload|, crc(plan[i].payload))];
    }
    assert entries == Entries(plan, crc);
  }

  /** Emits the sections and the table behind a zero header, then seals the file with its header. */
  method Write(plan: seq<Planned>, flags: nat, crc: Checksum) returns (file: seq<Byte>)
    requires Plan(plan)
    ensures file == FileOf(plan, flags, crc)
  {
    hide EncodeHeader, AlignUp, Start, EntryOf, Body, EncodeTable;
    var offsets, position := PlanOffsets(plan);
    var tableOffset := AlignUp(position, ALIGNMENT);
    var entries;
    file, entries := WriteSections(plan, offsets, crc);
    file := file + Zeros(tableOffset - |file|);
    var table := EncodeTable(entries);
    file := file + table;
    var header := Header(FORMAT_MINOR, flags, tableOffset + ENTRY_SIZE * |entries|, tableOffset, |entries|, crc(table));
    file := EncodeHeader(header, crc) + file[HEADER_SIZE..];
  }
}
