/**
  * Where the link lists of a graph lie: level 0 in chunks of fixed-stride lists, upper levels in blocks of a
  * chunked, append-only arena addressed by 32-bit offsets.
  */
module GraphLayout {
  import opened Arithmetic

  const MAX_NODES: nat := 0xFFFF_FFFF
  const OFFSETS: nat := 0x1_0000_0000

  /** The directory: parameters, each node's top level and arena offset, and how much is allocated. */
  datatype Dir = Dir(
    m: nat,
    maxLevel: nat,
    nodesPerChunk: nat,
    arenaWords: nat,
    maxChunks: nat,
    levels: seq<nat>,
    upper: seq<nat>,
    l0Chunks: nat,
    arenaChunks: nat,
    arenaUsed: nat)

  /** A block of any level fits in an arena chunk, and 32-bit offsets fill `maxChunks` chunks exactly. */
  predicate Sizes(d: Dir) {
    d.maxLevel * (1 + d.m) <= d.arenaWords && d.arenaWords * d.maxChunks == OFFSETS
  }

  /** What a graph can be created with; both chunk sizes are powers of two in the source. */
  predicate Parameters(d: Dir) {
    d.m >= 2 && d.maxLevel >= 1 && d.nodesPerChunk >= 1 && d.arenaWords >= 1 && Sizes(d)
  }

  function Empty(m: nat, maxLevel: nat, nodesPerChunk: nat, arenaWords: nat, maxChunks: nat): Dir {
    Dir(m, maxLevel, nodesPerChunk, arenaWords, maxChunks, [], [], 0, 0, arenaWords)
  }

  function BaseStride(m: nat): nat {
    1 + 2 * m
  }

  function UpperStride(m: nat): nat {
    1 + m
  }

  function Capacity(d: Dir, level: nat): nat {
    if level == 0 then 2 * d.m else d.m
  }

  function BlockWords(m: nat, level: nat): nat {
    level * UpperStride(m)
  }

  predicate IsList(d: Dir, id: nat, level: nat) {
    id < |d.levels| && level <= d.levels[id]
  }

  /** A list's place: which kind of chunk, which chunk, and its first word there. */
  datatype Place = Place(upper: bool, chunk: nat, start: nat)

  /** Slot `slot` of the base chunks. */
  function SlotPlace(d: Dir, slot: nat): Place
    requires d.nodesPerChunk > 0
  {
    Place(false, slot / d.nodesPerChunk, (slot % d.nodesPerChunk) * BaseStride(d.m))
  }

  function ListPlace(d: Dir, id: nat, level: nat): Place
    requires d.nodesPerChunk > 0 && d.arenaWords > 0 && IsList(d, id, level) && |d.upper| == |d.levels|
  {
    if level == 0 then SlotPlace(d, id)
    else Place(true, d.upper[id] / d.arenaWords, d.upper[id] % d.arenaWords + (level - 1) * UpperStride(d.m))
  }

  function ChunkSize(d: Dir, upper: bool): nat {
    if upper then d.arenaWords else d.nodesPerChunk * BaseStride(d.m)
  }

  function Chunks(d: Dir, upper: bool): nat {
    if upper then d.arenaChunks else d.l0Chunks
  }

  // ----- the invariant -----

  /** The upper block of node `i`. */
  predicate BlockInArena(d: Dir, i: nat)
    requires d.arenaWords > 0 && i < |d.levels| == |d.upper|
  {
    var chunk, start := d.upper[i] / d.arenaWords, d.upper[i] % d.arenaWords;
    && chunk < d.arenaChunks
    && start + BlockWords(d.m, d.levels[i]) <= (if chunk == d.arenaChunks - 1 then d.arenaUsed else d.arenaWords)
  }

  /** Blocks follow one another in node order. */
  predicate BlockBefore(d: Dir, i: nat, j: nat)
    requires d.arenaWords > 0 && i < |d.levels| == |d.upper| && j < |d.levels|
  {
    var ci, cj := d.upper[i] / d.arenaWords, d.upper[j] / d.arenaWords;
    ci < cj || (ci == cj && d.upper[i] % d.arenaWords + BlockWords(d.m, d.levels[i]) <= d.upper[j] % d.arenaWords)
  }

  /** Just enough base chunks for the nodes. */
  predicate BaseCovered(d: Dir) {
    |d.levels| <= d.l0Chunks * d.nodesPerChunk < |d.levels| + d.nodesPerChunk
  }

  ghost predicate BlocksInOrder(d: Dir)
    requires d.arenaWords > 0 && |d.levels| == |d.upper|
  {
    && (forall i: nat | i < |d.levels| && d.levels[i] > 0 :: BlockInArena(d, i))
    && (forall i: nat, j: nat | i < j < |d.levels| && d.levels[i] > 0 && d.levels[j] > 0 :: BlockBefore(d, i, j))
  }

  ghost predicate Valid(d: Dir) {
    && Parameters(d)
    && |d.levels| == |d.upper| <= MAX_NODES
    && (forall i: nat | i < |d.levels| :: d.levels[i] <= d.maxLevel)
    && BaseCovered(d)
    && d.arenaChunks <= d.maxChunks && d.arenaUsed <= d.arenaWords
    && (d.arenaChunks == 0 ==> d.arenaUsed == d.arenaWords)
    && BlocksInOrder(d)
  }

  // ----- adding a node -----

  datatype Refusal = LevelTooHigh | IdsExhausted | ArenaExhausted
  datatype Added = Added(dir: Dir) | Refused(why: Refusal)

  predicate OpensBase(d: Dir)
    requires d.nodesPerChunk > 0
  {
    |d.levels| % d.nodesPerChunk == 0
  }

  predicate OpensArena(d: Dir, level: nat) {
    level > 0 && d.arenaUsed + BlockWords(d.m, level) > d.arenaWords
  }

  function AddNode(d: Dir, level: nat): Added
    requires d.nodesPerChunk > 0
  {
    if level > d.maxLevel then Refused(LevelTooHigh)
    else if |d.levels| >= MAX_NODES then Refused(IdsExhausted)
    else if OpensArena(d, level) && d.arenaChunks >= d.maxChunks then Refused(ArenaExhausted)
    else
      var chunks := d.arenaChunks + if OpensArena(d, level) then 1 else 0;
      var used := if OpensArena(d, level) then 0 else d.arenaUsed;
      var offset := if level > 0 then ((chunks - 1) * d.arenaWords + used) % OFFSETS else 0;
      Added(d.(levels := d.levels + [level],
               upper := d.upper + [offset],
               l0Chunks := d.l0Chunks + if OpensBase(d) then 1 else 0,
               arenaChunks := chunks,
               arenaUsed := used + BlockWords(d.m, level)))
  }

  // ----- arithmetic -----

  /** `offset < 2^32`: the cast to 32 bits loses nothing as long as the chunk count is within its limit. */
  lemma OffsetFits(chunk: nat, start: nat, words: nat, chunks: nat)
    requires words * chunks == OFFSETS && chunk < chunks && start < words
    ensures chunk * words + start < OFFSETS
  {
    Grows(chunk + 1, chunks, words);
  }

  lemma BlockFits(d: Dir, level: nat)
    requires Parameters(d) && level <= d.maxLevel
    ensures BlockWords(d.m, level) <= d.arenaWords && (level > 0 ==> BlockWords(d.m, level) > 0)
  {
    Grows(level, d.maxLevel, 1 + d.m);
  }

  // ----- adding a node keeps the invariant -----

  lemma StoredOffset(chunk: nat, start: nat, words: nat, chunks: nat)
    requires words * chunks == OFFSETS && chunk < chunks && start < words
    ensures var offset := (chunk * words + start) % OFFSETS;
            offset == chunk * words + start && offset / words == chunk && offset % words == start
  {
    OffsetFits(chunk, start, words, chunks);
    DivMod(words, chunk, start);
  }

  function StartInArena(d: Dir, level: nat): nat {
    if OpensArena(d, level) then 0 else d.arenaUsed
  }

  /** The new block: the last chunk, right after what was used of it; the stored offset addresses exactly that. */
  lemma NewBlock(d: Dir, level: nat)
    requires Valid(d) && AddNode(d, level).Added? && level > 0
    ensures var e := AddNode(d, level).dir;
            && e.upper[|d.levels|] / d.arenaWords == e.arenaChunks - 1
            && e.upper[|d.levels|] % d.arenaWords == StartInArena(d, level)
            && e.upper[|d.levels|] == (e.arenaChunks - 1) * d.arenaWords + StartInArena(d, level)
            && e.arenaUsed == StartInArena(d, level) + BlockWords(d.m, level) <= d.arenaWords
            && e.arenaChunks <= d.maxChunks
  {
    hide BaseCovered, BlocksInOrder, Sizes, BlockWords;
    BlockFits(d, level);
    var e := AddNode(d, level).dir;
    assert d.arenaWords * d.maxChunks == OFFSETS by { OffsetsFilled(d); }
    StoredOffset(e.arenaChunks - 1, StartInArena(d, level), d.arenaWords, d.maxChunks);
  }

  lemma OffsetsFilled(d: Dir)
    requires Sizes(d)
    ensures d.arenaWords * d.maxChunks == OFFSETS
  {
  }

  lemma BaseChunksAfterAdd(d: Dir, n: nat, npc: nat, chunks: nat)
    requires npc > 0 && n <= chunks * npc < n + npc
    ensures n % npc == 0 ==> n == chunks * npc && n + 1 <= (chunks + 1) * npc < n + 1 + npc
    ensures n % npc != 0 ==> n + 1 <= chunks * npc < n + 1 + npc
  {
    var q, r := n / npc, n % npc;
    assert n == q * npc + r;
    if r == 0 {
      if q < chunks { Grows(q + 1, chunks, npc); }
      if q > chunks { Grows(chunks, q, npc); }
    } else if chunks <= q {
      Grows(chunks, q, npc);
    }
  }

  lemma OldBlockStays(d: Dir, level: nat, i: nat)
    requires Valid(d) && AddNode(d, level).Added? && i < |d.levels| && d.levels[i] > 0
    ensures BlockInArena(AddNode(d, level).dir, i)
    ensures level > 0 ==> BlockBefore(AddNode(d, level).dir, i, |d.levels|)
  {
    assert BlockInArena(d, i);
    if level > 0 {
      NewBlock(d, level);
    }
  }

  lemma OldOrderStays(d: Dir, level: nat, i: nat, j: nat)
    requires Valid(d) && AddNode(d, level).Added? && i < j < |d.levels| && d.levels[i] > 0 && d.levels[j] > 0
    ensures BlockBefore(AddNode(d, level).dir, i, j)
  {
    assert BlockBefore(d, i, j);
    var e := AddNode(d, level).dir;
    assert e.upper[i] == d.upper[i] && e.upper[j] == d.upper[j] && e.levels[i] == d.levels[i];
  }

  lemma NewBlockInArena(d: Dir, level: nat)
    requires Valid(d) && AddNode(d, level).Added? && level > 0
    ensures BlockInArena(AddNode(d, level).dir, |d.levels|)
  {
    hide BaseCovered, BlocksInOrder, Sizes, BlockWords;
    NewBlock(d, level);
    var e, n := AddNode(d, level).dir, |d.levels|;
    assert e.levels[n] == level && e.arenaWords == d.arenaWords && e.m == d.m;
    assert e.upper[n] / e.arenaWords == e.arenaChunks - 1 && e.upper[n] % e.arenaWords == StartInArena(d, level);
  }

  lemma NoWords(m: nat)
    ensures BlockWords(m, 0) == 0
  {
  }

  lemma SizesStay(d: Dir, level: nat)
    requires d.nodesPerChunk > 0 && AddNode(d, level).Added? && Sizes(d)
    ensures Sizes(AddNode(d, level).dir)
  {
  }

  lemma AddNodeKeepsValid(d: Dir, level: nat)
    requires Valid(d) && AddNode(d, level).Added?
    ensures Valid(AddNode(d, level).dir)
  {
    hide BlockInArena, BlockBefore, BlockWords, Sizes;
    var e, n := AddNode(d, level).dir, |d.levels|;
    BaseChunksAfterAdd(d, n, d.nodesPerChunk, d.l0Chunks);
    SizesStay(d, level);
    if level > 0 {
      NewBlock(d, level);
    } else {
      assert BlockWords(d.m, 0) == 0 by { NoWords(d.m); }
    }
    forall i: nat | i < n + 1 && e.levels[i] > 0
      ensures BlockInArena(e, i)
    {
      if i < n {
        OldBlockStays(d, level, i);
      } else {
        NewBlockInArena(d, level);
      }
    }
    forall i: nat, j: nat | i < j < n + 1 && e.levels[i] > 0 && e.levels[j] > 0
      ensures BlockBefore(e, i, j)
    {
      if j < n {
        OldOrderStays(d, level, i, j);
      } else {
        OldBlockStays(d, level, i);
      }
    }
  }

  lemma EmptyIsValid(m: nat, maxLevel: nat, nodesPerChunk: nat, arenaWords: nat, maxChunks: nat)
    requires Parameters(Empty(m, maxLevel, nodesPerChunk, arenaWords, maxChunks))
    ensures Valid(Empty(m, maxLevel, nodesPerChunk, arenaWords, maxChunks))
  {
    Grows(1, maxLevel, 1 + m);
  }

  // ----- places -----

  /** Every list, with room for all its ids, lies inside an allocated chunk. */
  lemma PlaceInBounds(d: Dir, id: nat, level: nat)
    requires Valid(d) && IsList(d, id, level)
    ensures var p := ListPlace(d, id, level);
            p.chunk < Chunks(d, p.upper) && p.start + 1 + Capacity(d, level) <= ChunkSize(d, p.upper)
  {
    if level == 0 {
      SlotInBounds(d, id);
    } else {
      assert BlockInArena(d, id);
      LevelsInBlock(d, level, d.levels[id]);
    }
  }

  lemma SlotInBounds(d: Dir, id: nat)
    requires Valid(d) && id < |d.levels|
    ensures id / d.nodesPerChunk < d.l0Chunks
    ensures (id % d.nodesPerChunk) * BaseStride(d.m) + BaseStride(d.m) <= d.nodesPerChunk * BaseStride(d.m)
  {
    var q, r := id / d.nodesPerChunk, id % d.nodesPerChunk;
    assert id == q * d.nodesPerChunk + r;
    if d.l0Chunks <= q {
      Grows(d.l0Chunks, q, d.nodesPerChunk);
    }
    Grows(r + 1, d.nodesPerChunk, BaseStride(d.m));
  }

  lemma LevelsInBlock(d: Dir, low: nat, high: nat)
    requires 0 < low <= high
    ensures (low - 1) * UpperStride(d.m) + UpperStride(d.m) <= BlockWords(d.m, high)
  {
    Grows(low, high, UpperStride(d.m));
  }

  /** Two lists share no word. */
  predicate Apart(p: Place, n: nat, q: Place, m: nat) {
    p.upper != q.upper || p.chunk != q.chunk || p.start + n <= q.start || q.start + m <= p.start
  }

  function ListWords(d: Dir, level: nat): nat {
    1 + Capacity(d, level)
  }

  lemma SlotsApart(r: nat, q: nat, stride: nat)
    requires r != q
    ensures r * stride + stride <= q * stride || q * stride + stride <= r * stride
  {
    if r < q {
      Grows(r + 1, q, stride);
    } else {
      Grows(q + 1, r, stride);
    }
  }

  lemma SameChunk(i: nat, j: nat, npc: nat)
    requires npc > 0 && i != j && i / npc == j / npc
    ensures i % npc != j % npc
  {
    assert i == (i / npc) * npc + i % npc && j == (j / npc) * npc + j % npc;
  }

  lemma SlotPlacesApart(d: Dir, i: nat, j: nat)
    requires d.nodesPerChunk > 0 && i != j
    ensures Apart(SlotPlace(d, i), BaseStride(d.m), SlotPlace(d, j), BaseStride(d.m))
  {
    hide BaseStride;
    var npc := d.nodesPerChunk;
    if i / npc == j / npc {
      SameChunk(i, j, npc);
      SlotsApart(i % npc, j % npc, BaseStride(d.m));
    }
  }

  lemma LevelsApart(low: nat, high: nat, stride: nat)
    requires 0 < low < high
    ensures (low - 1) * stride + stride <= (high - 1) * stride
  {
    Grows(low, high - 1, stride);
  }

  lemma UpperListsApart(d: Dir, i: nat, li: nat, j: nat, lj: nat)
    requires Valid(d) && IsList(d, i, li) && IsList(d, j, lj) && li > 0 && lj > 0 && (i < j || (i == j && li < lj))
    ensures Apart(ListPlace(d, i, li), UpperStride(d.m), ListPlace(d, j, lj), UpperStride(d.m))
  {
    hide UpperStride, BlockInArena, BlockWords;
    if i == j {
      LevelsApart(li, lj, UpperStride(d.m));
    } else {
      assert BlockBefore(d, i, j);
      LevelsInBlock(d, li, d.levels[i]);
      Grows(0, lj - 1, UpperStride(d.m));
    }
  }

  /** Lists of different (node, level) pairs occupy disjoint words. */
  lemma PlacesApart(d: Dir, i: nat, li: nat, j: nat, lj: nat)
    requires Valid(d) && IsList(d, i, li) && IsList(d, j, lj) && (i != j || li != lj)
    ensures Apart(ListPlace(d, i, li), ListWords(d, li), ListPlace(d, j, lj), ListWords(d, lj))
  {
    if li == 0 && lj == 0 {
      SlotPlacesApart(d, i, j);
    } else if li > 0 && lj > 0 {
      if i < j || (i == j && li < lj) {
        UpperListsApart(d, i, li, j, lj);
      } else {
        UpperListsApart(d, j, lj, i, li);
      }
    }
  }

  /** Adding a node moves no list. */
  lemma PlacesStay(d: Dir, level: nat, i: nat, li: nat)
    requires Valid(d) && AddNode(d, level).Added? && IsList(d, i, li)
    ensures IsList(AddNode(d, level).dir, i, li) && ListPlace(AddNode(d, level).dir, i, li) == ListPlace(d, i, li)
  {
  }

  /** Words no list has reached yet: base slots past the last node, and the unused end of the last arena chunk. */
  predicate FreeSlot(d: Dir, slot: nat) {
    |d.levels| <= slot < d.l0Chunks * d.nodesPerChunk
  }

  lemma FreeSlotApart(d: Dir, i: nat, slot: nat)
    requires Valid(d) && i < |d.levels| && FreeSlot(d, slot)
    ensures Apart(SlotPlace(d, i), BaseStride(d.m), SlotPlace(d, slot), 1)
  {
    hide BlocksInOrder, Sizes, BaseCovered, SlotPlace;
    SlotPlacesApart(d, i, slot);
  }

  lemma FreeSlotInBounds(d: Dir, slot: nat)
    requires Valid(d) && FreeSlot(d, slot)
    ensures SlotPlace(d, slot).chunk < d.l0Chunks && SlotPlace(d, slot).start < ChunkSize(d, false)
  {
    hide BlocksInOrder, Sizes;
    SlotInChunk(slot, d.nodesPerChunk, d.l0Chunks, BaseStride(d.m));
  }

  lemma SlotInChunk(slot: nat, npc: nat, chunks: nat, stride: nat)
    requires npc > 0 && stride > 0 && slot < chunks * npc
    ensures slot / npc < chunks && (slot % npc) * stride < npc * stride
  {
    var q, r := slot / npc, slot % npc;
    assert slot == q * npc + r;
    if chunks <= q {
      Grows(chunks, q, npc);
    }
    Grows(r + 1, npc, stride);
    assert (r + 1) * stride == r * stride + stride;
  }

  /** A list in the last arena chunk ends where the used part ends. */
  lemma UpperInUsedPart(d: Dir, i: nat, level: nat)
    requires Valid(d) && IsList(d, i, level) && level > 0
    ensures var p := ListPlace(d, i, level);
            p.chunk == d.arenaChunks - 1 ==> p.start + UpperStride(d.m) <= d.arenaUsed
  {
    assert BlockInArena(d, i);
    LevelsInBlock(d, level, d.levels[i]);
  }

  /** The lists of a new node start in words that were free, or in a new chunk. */
  lemma NewListsWereFree(d: Dir, level: nat, l: nat)
    requires Valid(d) && AddNode(d, level).Added? && l <= level
    ensures IsList(AddNode(d, level).dir, |d.levels|, l)
    ensures var p := ListPlace(AddNode(d, level).dir, |d.levels|, l);
            && (l == 0 && !OpensBase(d) ==> FreeSlot(d, |d.levels|))
            && (l == 0 && OpensBase(d) ==> p.chunk == d.l0Chunks)
            && (l > 0 && !OpensArena(d, level) ==> p.chunk == d.arenaChunks - 1 && p.start >= d.arenaUsed)
            && (l > 0 && OpensArena(d, level) ==> p.chunk == d.arenaChunks)
  {
    var npc := d.nodesPerChunk;
    BaseChunksAfterAdd(d, |d.levels|, npc, d.l0Chunks);
    if l == 0 && OpensBase(d) {
      DivMod(npc, d.l0Chunks, 0);
    }
    if l > 0 {
      NewBlock(d, level);
      Grows(1, l, UpperStride(d.m));
    }
  }

  /** After adding a node, a slot is free if it was free before and is not the new node's, or lies in the new chunk. */
  lemma FreeAfterAdd(d: Dir, level: nat, slot: nat)
    requires Valid(d) && AddNode(d, level).Added? && FreeSlot(AddNode(d, level).dir, slot)
    ensures slot > |d.levels|
    ensures FreeSlot(d, slot) || (OpensBase(d) && slot / d.nodesPerChunk == d.l0Chunks)
  {
    var npc := d.nodesPerChunk;
    if OpensBase(d) && slot >= d.l0Chunks * npc {
      DivMod(npc, d.l0Chunks, slot - d.l0Chunks * npc);
    }
  }
}
