/** Link lists as contents of memory: reading one, overwriting one, and growing by a node, as functions. */
module GraphMemory {
  import opened GraphLayout

  /** The words of the base chunks and of the arena chunks. */
  datatype Mem = Mem(base: seq<seq<nat>>, arena: seq<seq<nat>>)

  function Side(mem: Mem, upper: bool): seq<seq<nat>> {
    if upper then mem.arena else mem.base
  }

  predicate InMem(mem: Mem, p: Place, n: nat) {
    p.chunk < |Side(mem, p.upper)| && p.start + n <= |Side(mem, p.upper)[p.chunk]|
  }

  function Word(mem: Mem, p: Place, k: nat): nat
    requires InMem(mem, p, k + 1)
  {
    Side(mem, p.upper)[p.chunk][p.start + k]
  }

  predicate CountFits(mem: Mem, p: Place, capacity: nat) {
    InMem(mem, p, 1 + capacity) && Word(mem, p, 0) <= capacity
  }

  /** The list stored at a place: as many ids as its count says. */
  function ListAt(mem: Mem, p: Place, capacity: nat): seq<nat> {
    if CountFits(mem, p, capacity) then Side(mem, p.upper)[p.chunk][p.start + 1..p.start + 1 + Word(mem, p, 0)] else []
  }

  /** Overwrites a list: ids first, then the count; what lies past the new ids stays. */
  function StoreChunk(chunk: seq<nat>, start: nat, ids: seq<nat>): seq<nat>
    requires start + 1 + |ids| <= |chunk|
  {
    chunk[..start] + [|ids|] + ids + chunk[start + 1 + |ids|..]
  }

  function Store(mem: Mem, p: Place, ids: seq<nat>): Mem
    requires InMem(mem, p, 1 + |ids|)
  {
    var chunk := StoreChunk(Side(mem, p.upper)[p.chunk], p.start, ids);
    if p.upper then mem.(arena := mem.arena[p.chunk := chunk]) else mem.(base := mem.base[p.chunk := chunk])
  }

  // ----- memory that agrees with a directory -----

  ghost predicate SizesMatch(d: Dir, mem: Mem) {
    && |mem.base| == d.l0Chunks && |mem.arena| == d.arenaChunks
    && (forall c: nat | c < |mem.base| :: |mem.base[c]| == ChunkSize(d, false))
    && (forall c: nat | c < |mem.arena| :: |mem.arena[c]| == ChunkSize(d, true))
  }

  /** A place with room for `n` words, in terms of the directory alone. */
  predicate InDir(d: Dir, p: Place, n: nat) {
    p.chunk < Chunks(d, p.upper) && p.start + n <= ChunkSize(d, p.upper)
  }

  lemma InDirInMem(d: Dir, mem: Mem, p: Place, n: nat)
    requires SizesMatch(d, mem) && InDir(d, p, n)
    ensures InMem(mem, p, n)
  {
  }

  lemma ListInDir(d: Dir, id: nat, level: nat)
    requires Valid(d) && IsList(d, id, level)
    ensures InDir(d, ListPlace(d, id, level), ListWords(d, level))
  {
    PlaceInBounds(d, id, level);
  }

  function ListPlaceOf(d: Dir, id: nat, level: nat): Place
    requires Valid(d) && IsList(d, id, level)
  {
    ListPlace(d, id, level)
  }

  ghost predicate CountsFit(d: Dir, mem: Mem)
    requires Valid(d)
  {
    forall id: nat, level: nat | IsList(d, id, level) :: CountFits(mem, ListPlaceOf(d, id, level), Capacity(d, level))
  }

  predicate StartsEmpty(mem: Mem, p: Place) {
    InMem(mem, p, 1) && Word(mem, p, 0) == 0
  }

  predicate UnusedWord(d: Dir, w: nat) {
    d.arenaChunks > 0 && d.arenaUsed <= w < d.arenaWords
  }

  function UnusedPlace(d: Dir, w: nat): Place {
    Place(true, if d.arenaChunks > 0 then d.arenaChunks - 1 else 0, w)
  }

  /** Words no list has reached are zero, so a new list starts empty. */
  ghost predicate FreeIsZero(d: Dir, mem: Mem)
    requires Valid(d)
  {
    && (forall slot: nat | FreeSlot(d, slot) :: StartsEmpty(mem, SlotPlace(d, slot)))
    && (forall w: nat | UnusedWord(d, w) :: StartsEmpty(mem, UnusedPlace(d, w)))
  }

  ghost predicate Agrees(d: Dir, mem: Mem) {
    Valid(d) && SizesMatch(d, mem) && CountsFit(d, mem) && FreeIsZero(d, mem)
  }

  function Links(d: Dir, mem: Mem, id: nat, level: nat): seq<nat>
    requires Valid(d) && IsList(d, id, level)
  {
    ListAt(mem, ListPlaceOf(d, id, level), Capacity(d, level))
  }

  lemma ListInMem(d: Dir, mem: Mem, id: nat, level: nat)
    requires Valid(d) && SizesMatch(d, mem) && IsList(d, id, level)
    ensures InMem(mem, ListPlaceOf(d, id, level), ListWords(d, level))
  {
    hide Valid, ListPlace, SizesMatch;
    ListInDir(d, id, level);
    InDirInMem(d, mem, ListPlaceOf(d, id, level), ListWords(d, level));
  }

  // ----- overwriting one list -----

  lemma StoreReads(mem: Mem, p: Place, ids: seq<nat>, capacity: nat)
    requires InMem(mem, p, 1 + capacity) && |ids| <= capacity
    ensures CountFits(Store(mem, p, ids), p, capacity) && ListAt(Store(mem, p, ids), p, capacity) == ids
  {
    var chunk := Side(mem, p.upper)[p.chunk];
    var after := StoreChunk(chunk, p.start, ids);
    assert after[p.start] == |ids|;
    assert after[p.start + 1..p.start + 1 + |ids|] == ids;
  }

  lemma StoreKeepsWord(mem: Mem, p: Place, ids: seq<nat>, q: Place, k: nat)
    requires InMem(mem, p, 1 + |ids|) && InMem(mem, q, k + 1) && Apart(p, 1 + |ids|, Place(q.upper, q.chunk, q.start + k), 1)
    ensures InMem(Store(mem, p, ids), q, k + 1) && Word(Store(mem, p, ids), q, k) == Word(mem, q, k)
  {
  }

  lemma StoreKeepsList(mem: Mem, p: Place, ids: seq<nat>, q: Place, capacity: nat)
    requires InMem(mem, p, 1 + |ids|) && CountFits(mem, q, capacity) && Apart(p, 1 + |ids|, q, 1 + capacity)
    ensures CountFits(Store(mem, p, ids), q, capacity)
    ensures ListAt(Store(mem, p, ids), q, capacity) == ListAt(mem, q, capacity)
  {
    var after := Store(mem, p, ids);
    StoreKeepsWord(mem, p, ids, q, 0);
    var n := Word(mem, q, 0);
    var was, now := ListAt(mem, q, capacity), Side(after, q.upper)[q.chunk][q.start + 1..q.start + 1 + n];
    forall k: nat | k < n
      ensures was[k] == now[k]
    {
      StoreKeepsWord(mem, p, ids, q, k + 1);
    }
    assert was == now;
  }

  lemma OtherListKept(d: Dir, mem: Mem, id: nat, level: nat, ids: seq<nat>, i: nat, l: nat)
    requires Agrees(d, mem) && IsList(d, id, level) && |ids| <= Capacity(d, level)
    requires InMem(mem, ListPlaceOf(d, id, level), 1 + |ids|)
    requires IsList(d, i, l) && (i != id || l != level)
    ensures CountFits(Store(mem, ListPlaceOf(d, id, level), ids), ListPlaceOf(d, i, l), Capacity(d, l))
    ensures Links(d, Store(mem, ListPlaceOf(d, id, level), ids), i, l) == Links(d, mem, i, l)
  {
    hide Valid, Store, InMem, ListAt, CountFits, FreeIsZero, SizesMatch, ListPlace;
    PlacesApart(d, id, level, i, l);
    CountOf(d, mem, i, l);
    StoreKeepsList(mem, ListPlaceOf(d, id, level), ids, ListPlaceOf(d, i, l), Capacity(d, l));
  }

  lemma CountOf(d: Dir, mem: Mem, i: nat, l: nat)
    requires Valid(d) && CountsFit(d, mem) && IsList(d, i, l)
    ensures CountFits(mem, ListPlaceOf(d, i, l), Capacity(d, l))
  {
    hide Valid, CountFits;
  }

  /** `set_links` changes exactly the named list. */
  lemma StoreChangesOneList(d: Dir, mem: Mem, id: nat, level: nat, ids: seq<nat>)
    requires Agrees(d, mem) && IsList(d, id, level) && |ids| <= Capacity(d, level)
    ensures InMem(mem, ListPlaceOf(d, id, level), ListWords(d, level))
    ensures var after := Store(mem, ListPlaceOf(d, id, level), ids);
            && Agrees(d, after) && Links(d, after, id, level) == ids
            && forall i: nat, l: nat | IsList(d, i, l) && (i != id || l != level) ::
                 Links(d, after, i, l) == Links(d, mem, i, l)
  {
    hide Valid, ListAt, Store, CountFits, FreeIsZero, SizesMatch, ListPlaceOf, IsList, InMem;
    var p := ListPlaceOf(d, id, level);
    ListInMem(d, mem, id, level);
    EnoughRoom(d, mem, p, level, ids);
    StoreReads(mem, p, ids, Capacity(d, level));
    SizesAfterStore(d, mem, p, ids);
    forall i: nat, l: nat | IsList(d, i, l) && (i != id || l != level)
      ensures CountFits(Store(mem, p, ids), ListPlaceOf(d, i, l), Capacity(d, l))
      ensures Links(d, Store(mem, p, ids), i, l) == Links(d, mem, i, l)
    {
      OtherListKept(d, mem, id, level, ids, i, l);
    }
    FreeAfterStore(d, mem, id, level, ids);
  }

  lemma EnoughRoom(d: Dir, mem: Mem, p: Place, level: nat, ids: seq<nat>)
    requires InMem(mem, p, ListWords(d, level)) && |ids| <= Capacity(d, level)
    ensures InMem(mem, p, 1 + |ids|) && InMem(mem, p, 1 + Capacity(d, level))
  {
  }

  lemma SizesAfterStore(d: Dir, mem: Mem, p: Place, ids: seq<nat>)
    requires SizesMatch(d, mem) && InMem(mem, p, 1 + |ids|)
    ensures SizesMatch(d, Store(mem, p, ids))
  {
  }

  lemma FreeSlotKept(d: Dir, mem: Mem, id: nat, level: nat, ids: seq<nat>, slot: nat)
    requires Valid(d) && IsList(d, id, level) && |ids| <= Capacity(d, level)
    requires InMem(mem, ListPlaceOf(d, id, level), 1 + |ids|) && FreeSlot(d, slot) && StartsEmpty(mem, SlotPlace(d, slot))
    ensures StartsEmpty(Store(mem, ListPlaceOf(d, id, level), ids), SlotPlace(d, slot))
  {
    hide Valid, Store, InMem, SlotPlace;
    ValidHasChunks(d);
    if level == 0 {
      FreeSlotApart(d, id, slot);
    }
    assert SlotPlace(d, slot).upper == false by { SlotIsBase(d, slot); }
    StoreKeepsWord(mem, ListPlaceOf(d, id, level), ids, SlotPlace(d, slot), 0);
  }

  lemma SlotIsBase(d: Dir, slot: nat)
    requires d.nodesPerChunk > 0
    ensures !SlotPlace(d, slot).upper
  {
  }

  lemma UnusedWordKept(d: Dir, mem: Mem, id: nat, level: nat, ids: seq<nat>, w: nat)
    requires Valid(d) && IsList(d, id, level) && |ids| <= Capacity(d, level)
    requires InMem(mem, ListPlaceOf(d, id, level), 1 + |ids|)
    requires UnusedWord(d, w) && StartsEmpty(mem, UnusedPlace(d, w))
    ensures StartsEmpty(Store(mem, ListPlaceOf(d, id, level), ids), UnusedPlace(d, w))
  {
    hide Valid, Store, InMem;
    ValidHasChunks(d);
    if level > 0 {
      UpperInUsedPart(d, id, level);
    } else {
      SlotIsBase(d, id);
    }
    StoreKeepsWord(mem, ListPlaceOf(d, id, level), ids, UnusedPlace(d, w), 0);
  }

  lemma FreeAfterStore(d: Dir, mem: Mem, id: nat, level: nat, ids: seq<nat>)
    requires Agrees(d, mem) && IsList(d, id, level) && |ids| <= Capacity(d, level)
    requires InMem(mem, ListPlaceOf(d, id, level), 1 + |ids|)
    ensures FreeIsZero(d, Store(mem, ListPlaceOf(d, id, level), ids))
  {
    hide Valid, Store, CountsFit, SizesMatch, FreeSlot, UnusedWord, StartsEmpty, ListPlaceOf;
    ValidHasChunks(d);
    forall slot: nat | FreeSlot(d, slot)
      ensures StartsEmpty(Store(mem, ListPlaceOf(d, id, level), ids), SlotPlace(d, slot))
    {
      FreeSlotKept(d, mem, id, level, ids, slot);
    }
    forall w: nat | UnusedWord(d, w)
      ensures StartsEmpty(Store(mem, ListPlaceOf(d, id, level), ids), UnusedPlace(d, w))
    {
      UnusedWordKept(d, mem, id, level, ids, w);
    }
  }

  lemma ValidHasChunks(d: Dir)
    requires Valid(d)
    ensures d.nodesPerChunk > 0
  {
  }

  // ----- growing by a node -----

  function Zeros(n: nat): seq<nat> {
    seq(n, _ => 0)
  }

  /** `add_node` opens zeroed chunks where it needs them. */
  function Grown(d: Dir, mem: Mem, level: nat): Mem
    requires d.nodesPerChunk > 0
  {
    Mem(mem.base + if OpensBase(d) then [Zeros(ChunkSize(d, false))] else [],
        mem.arena + if OpensArena(d, level) then [Zeros(ChunkSize(d, true))] else [])
  }

  lemma SizesAfterGrow(d: Dir, mem: Mem, level: nat)
    requires Valid(d) && AddNode(d, level).Added? && SizesMatch(d, mem)
    ensures SizesMatch(AddNode(d, level).dir, Grown(d, mem, level))
  {
    hide Valid, Parameters;
    ValidHasChunks(d);
    var e, grown := AddNode(d, level).dir, Grown(d, mem, level);
    assert ChunkSize(e, false) == ChunkSize(d, false) && ChunkSize(e, true) == ChunkSize(d, true);
    forall c: nat | c < |grown.base|
      ensures |grown.base[c]| == ChunkSize(d, false)
    {
    }
  }

  lemma GrowKeepsWord(d: Dir, mem: Mem, level: nat, p: Place, k: nat)
    requires d.nodesPerChunk > 0 && InMem(mem, p, k + 1)
    ensures InMem(Grown(d, mem, level), p, k + 1) && Word(Grown(d, mem, level), p, k) == Word(mem, p, k)
  {
  }

  lemma GrowKeepsList(d: Dir, mem: Mem, level: nat, p: Place, capacity: nat)
    requires d.nodesPerChunk > 0 && CountFits(mem, p, capacity)
    ensures CountFits(Grown(d, mem, level), p, capacity)
    ensures ListAt(Grown(d, mem, level), p, capacity) == ListAt(mem, p, capacity)
  {
  }

  /** The words of a chunk just opened. */
  lemma OpenedIsZero(d: Dir, mem: Mem, level: nat, p: Place)
    requires d.nodesPerChunk > 0 && SizesMatch(d, mem) && p.start < ChunkSize(d, p.upper)
    requires p.upper ==> OpensArena(d, level) && p.chunk == d.arenaChunks
    requires !p.upper ==> OpensBase(d) && p.chunk == d.l0Chunks
    ensures StartsEmpty(Grown(d, mem, level), p)
  {
  }

  lemma OldListKept(d: Dir, mem: Mem, level: nat, i: nat, l: nat)
    requires Agrees(d, mem) && AddNode(d, level).Added? && IsList(d, i, l)
    ensures Valid(AddNode(d, level).dir) && IsList(AddNode(d, level).dir, i, l)
    ensures var e, grown := AddNode(d, level).dir, Grown(d, mem, level);
            CountFits(grown, ListPlaceOf(e, i, l), Capacity(e, l)) && Links(e, grown, i, l) == Links(d, mem, i, l)
  {
    hide Valid, CountFits, ListAt, Grown, SizesMatch, FreeIsZero, ListPlace;
    ValidHasChunks(d);
    AddNodeKeepsValid(d, level);
    PlacesStay(d, level, i, l);
    CountOf(d, mem, i, l);
    GrowKeepsList(d, mem, level, ListPlaceOf(d, i, l), Capacity(d, l));
  }

  lemma NewListEmpty(d: Dir, mem: Mem, level: nat, l: nat)
    requires Agrees(d, mem) && AddNode(d, level).Added? && l <= level
    ensures Valid(AddNode(d, level).dir) && IsList(AddNode(d, level).dir, |d.levels|, l)
    ensures var e, grown := AddNode(d, level).dir, Grown(d, mem, level);
            CountFits(grown, ListPlaceOf(e, |d.levels|, l), Capacity(e, l)) && Links(e, grown, |d.levels|, l) == []
  {
    hide Valid, Grown, SizesMatch, CountsFit, ListPlace;
    ValidHasChunks(d);
    AddNodeKeepsValid(d, level);
    NewListsWereFree(d, level, l);
    ValidHasChunks(d);
    var e, grown := AddNode(d, level).dir, Grown(d, mem, level);
    var p := ListPlaceOf(e, |d.levels|, l);
    SizesAfterGrow(d, mem, level);
    ListInMem(e, grown, |d.levels|, l);
    NewStartsEmpty(d, mem, level, l, p);
  }

  lemma NewStartsEmpty(d: Dir, mem: Mem, level: nat, l: nat, p: Place)
    requires Agrees(d, mem) && AddNode(d, level).Added? && l <= level && Valid(AddNode(d, level).dir)
    requires IsList(AddNode(d, level).dir, |d.levels|, l) && p == ListPlaceOf(AddNode(d, level).dir, |d.levels|, l)
    ensures StartsEmpty(Grown(d, mem, level), p)
  {
    hide Valid, Grown, SizesMatch, CountsFit, StartsEmpty, InMem;
    ValidHasChunks(d);
    var e := AddNode(d, level).dir;
    NewListsWereFree(d, level, l);
    PlaceInBounds(e, |d.levels|, l);
    assert ChunkSize(e, p.upper) == ChunkSize(d, p.upper);
    if (if l == 0 then OpensBase(d) else OpensArena(d, level)) {
      OpenedIsZero(d, mem, level, p);
    } else if l == 0 {
      assert p == SlotPlace(d, |d.levels|);
      StillEmpty(d, mem, level, p);
    } else {
      NewBlock(d, level);
      assert p == UnusedPlace(d, p.start) && UnusedWord(d, p.start);
      StillEmpty(d, mem, level, p);
    }
  }

  lemma StillEmpty(d: Dir, mem: Mem, level: nat, p: Place)
    requires d.nodesPerChunk > 0 && StartsEmpty(mem, p)
    ensures StartsEmpty(Grown(d, mem, level), p)
  {
    GrowKeepsWord(d, mem, level, p, 0);
  }

  lemma FreeAfterGrow(d: Dir, mem: Mem, level: nat)
    requires Agrees(d, mem) && AddNode(d, level).Added? && Valid(AddNode(d, level).dir)
    ensures FreeIsZero(AddNode(d, level).dir, Grown(d, mem, level))
  {
    hide Valid, Grown, SizesMatch, CountsFit, StartsEmpty, InMem;
    ValidHasChunks(d);
    var e, grown := AddNode(d, level).dir, Grown(d, mem, level);
    forall slot: nat | FreeSlot(e, slot)
      ensures StartsEmpty(grown, SlotPlace(e, slot))
    {
      FreeAfterAdd(d, level, slot);
      FreeSlotInBounds(e, slot);
      if FreeSlot(d, slot) {
        StillEmpty(d, mem, level, SlotPlace(d, slot));
      } else {
        OpenedIsZero(d, mem, level, SlotPlace(e, slot));
      }
    }
    forall w: nat | UnusedWord(e, w)
      ensures StartsEmpty(grown, UnusedPlace(e, w))
    {
      if OpensArena(d, level) {
        OpenedIsZero(d, mem, level, UnusedPlace(e, w));
      } else {
        UnusedBefore(d, level, w);
        StillEmpty(d, mem, level, UnusedPlace(d, w));
      }
    }
  }

  lemma UnusedBefore(d: Dir, level: nat, w: nat)
    requires Valid(d) && AddNode(d, level).Added? && !OpensArena(d, level) && UnusedWord(AddNode(d, level).dir, w)
    ensures UnusedWord(d, w) && UnusedPlace(d, w) == UnusedPlace(AddNode(d, level).dir, w)
  {
  }

  /** `add_node` leaves every list as it was and gives the new node empty lists on all its levels. */
  lemma AddNodeKeepsLists(d: Dir, mem: Mem, level: nat)
    requires Agrees(d, mem) && AddNode(d, level).Added?
    ensures var e, grown := AddNode(d, level).dir, Grown(d, mem, level);
            && Agrees(e, grown)
            && (forall i: nat, l: nat | IsList(d, i, l) :: IsList(e, i, l) && Links(e, grown, i, l) == Links(d, mem, i, l))
            && (forall l: nat | l <= level :: IsList(e, |d.levels|, l) && Links(e, grown, |d.levels|, l) == [])
  {
    hide Valid, Grown, SizesMatch, FreeIsZero, CountFits, ListAt, ListPlaceOf;
    ValidHasChunks(d);
    var e, grown := AddNode(d, level).dir, Grown(d, mem, level);
    AddNodeKeepsValid(d, level);
    SizesAfterGrow(d, mem, level);
    FreeAfterGrow(d, mem, level);
    forall i: nat, l: nat | IsList(d, i, l)
      ensures IsList(e, i, l) && CountFits(grown, ListPlaceOf(e, i, l), Capacity(e, l))
      ensures Links(e, grown, i, l) == Links(d, mem, i, l)
    {
      OldListKept(d, mem, level, i, l);
    }
    forall l: nat | l <= level
      ensures IsList(e, |d.levels|, l) && CountFits(grown, ListPlaceOf(e, |d.levels|, l), Capacity(e, l))
      ensures Links(e, grown, |d.levels|, l) == []
    {
      NewListEmpty(d, mem, level, l);
    }
    ListsAfterAdd(d, level);
  }

  lemma ListsAfterAdd(d: Dir, level: nat)
    requires d.nodesPerChunk > 0 && AddNode(d, level).Added?
    ensures forall i: nat, l: nat | IsList(AddNode(d, level).dir, i, l) ::
              IsList(d, i, l) || (i == |d.levels| && l <= level)
  {
  }
}
