/** The graph's storage in place: chunks of words as arrays, changed one list at a time. */
module GraphStore {
  import opened GraphLayout
  import opened GraphMemory

  ghost function Contents(chunks: seq<array<nat>>): (s: seq<seq<nat>>)
    reads chunks
    ensures |s| == |chunks|
    ensures forall c: nat | c < |chunks| :: s[c] == chunks[c][..]
  {
    seq(|chunks|, c requires 0 <= c < |chunks| reads chunks => chunks[c][..])
  }

  /** No two chunks are the same memory. */
  ghost predicate Distinct(base: seq<array<nat>>, arena: seq<array<nat>>) {
    && (forall b: nat, c: nat | b < c < |base| :: base[b] != base[c])
    && (forall b: nat, c: nat | b < c < |arena| :: arena[b] != arena[c])
    && (forall b: nat, c: nat | b < |base| && c < |arena| :: base[b] != arena[c])
  }

  /** Overwrites a list word by word: the ids, then the count. */
  method WriteList(a: array<nat>, start: nat, ids: seq<nat>)
    requires start + 1 + |ids| <= a.Length
    modifies a
    ensures a[..] == StoreChunk(old(a[..]), start, ids)
  {
    var i: nat := 0;
    while i < |ids|
      invariant i <= |ids|
      invariant a[..start + 1] == old(a[..start + 1])
      invariant a[start + 1..start + 1 + i] == ids[..i]
      invariant a[start + 1 + i..] == old(a[start + 1 + i..])
    {
      a[start + 1 + i] := ids[i];
      i := i + 1;
    }
    assert a[start + 1..start + 1 + |ids|] == ids;
    a[start] := |ids|;
    assert a[..start] == old(a[..start]);
    assert a[..] == a[..start] + [a[start]] + a[start + 1..start + 1 + |ids|] + a[start + 1 + |ids|..];
  }

  class HnswGraph {
    const m: nat
    const maxLevel: nat
    const nodesPerChunk: nat
    const arenaWords: nat
    const maxChunks: nat
    var levels: seq<nat>
    var upper: seq<nat>
    var arenaUsed: nat
    var l0Chunks: seq<array<nat>>
    var arenaChunks: seq<array<nat>>

    ghost function Layout(): Dir
      reads this
    {
      Dir(m, maxLevel, nodesPerChunk, arenaWords, maxChunks, levels, upper, |l0Chunks|, |arenaChunks|, arenaUsed)
    }

    ghost function Memory(): Mem
      reads this, l0Chunks, arenaChunks
    {
      Mem(Contents(l0Chunks), Contents(arenaChunks))
    }

    ghost predicate Valid()
      reads this, l0Chunks, arenaChunks
    {
      Agrees(Layout(), Memory()) && Distinct(l0Chunks, arenaChunks)
    }

    ghost function LinksOf(id: nat, level: nat): seq<nat>
      requires Valid() && IsList(Layout(), id, level)
      reads this, l0Chunks, arenaChunks
    {
      Links(Layout(), Memory(), id, level)
    }

    constructor (m: nat, maxLevel: nat, nodesPerChunk: nat, arenaWords: nat, maxChunks: nat)
      requires Parameters(Empty(m, maxLevel, nodesPerChunk, arenaWords, maxChunks))
      ensures Valid() && Layout() == Empty(m, maxLevel, nodesPerChunk, arenaWords, maxChunks)
    {
      this.m, this.maxLevel, this.nodesPerChunk := m, maxLevel, nodesPerChunk;
      this.arenaWords, this.maxChunks := arenaWords, maxChunks;
      levels, upper, arenaUsed, l0Chunks, arenaChunks := [], [], arenaWords, [], [];
      new;
      EmptyIsValid(m, maxLevel, nodesPerChunk, arenaWords, maxChunks);
    }

    method OpenBaseChunk()
      requires Distinct(l0Chunks, arenaChunks)
      modifies this`l0Chunks
      ensures Distinct(l0Chunks, arenaChunks)
      ensures |l0Chunks| == |old(l0Chunks)| + 1
      ensures Memory() == old(Memory()).(base := old(Memory()).base + [Zeros(nodesPerChunk * (1 + 2 * m))])
    {
      var chunk := new nat[nodesPerChunk * (1 + 2 * m)](_ => 0);
      assert chunk[..] == Zeros(nodesPerChunk * (1 + 2 * m));
      l0Chunks := l0Chunks + [chunk];
      assert Contents(l0Chunks) == old(Contents(l0Chunks)) + [chunk[..]];
      assert Contents(arenaChunks) == old(Contents(arenaChunks));
    }

    method OpenArenaChunk()
      requires Distinct(l0Chunks, arenaChunks)
      modifies this`arenaChunks, this`arenaUsed
      ensures Distinct(l0Chunks, arenaChunks)
      ensures |arenaChunks| == |old(arenaChunks)| + 1 && arenaUsed == 0
      ensures Memory() == old(Memory()).(arena := old(Memory()).arena + [Zeros(arenaWords)])
    {
      var chunk := new nat[arenaWords](_ => 0);
      assert chunk[..] == Zeros(arenaWords);
      arenaChunks := arenaChunks + [chunk];
      arenaUsed := 0;
      assert Contents(arenaChunks) == old(Contents(arenaChunks)) + [chunk[..]];
      assert Contents(l0Chunks) == old(Contents(l0Chunks));
    }

    /** The second phase of `add_node`: nothing here can fail. */
    method CommitNode(level: nat)
      requires nodesPerChunk > 0 && Distinct(l0Chunks, arenaChunks) && AddNode(Layout(), level).Added?
      modifies this
      ensures Layout() == old(AddNode(Layout(), level)).dir && Memory() == old(Grown(Layout(), Memory(), level))
      ensures Distinct(l0Chunks, arenaChunks)
    {
      hide Distinct, Contents;
      var id, block := |levels|, level * (1 + m);
      ghost var mem := Memory();
      if id % nodesPerChunk == 0 {
        OpenBaseChunk();
      } else {
        assert mem.base + [] == mem.base;
      }
      var offset := 0;
      if level > 0 {
        if arenaUsed + block > arenaWords {
          OpenArenaChunk();
        } else {
          assert mem.arena + [] == mem.arena;
        }
        offset := ((|arenaChunks| - 1) * arenaWords + arenaUsed) % OFFSETS;
      } else {
        assert mem.arena + [] == mem.arena;
      }
      arenaUsed := arenaUsed + block;
      levels := levels + [level];
      upper := upper + [offset];
    }

    /** Appends a node with empty lists; on any failure the graph is unchanged. */
    method Add(level: nat, allocFails: bool) returns (ok: bool)
      requires Valid()
      modifies this
      ensures Valid()
      ensures ok <==> old(AddNode(Layout(), level)).Added? && !allocFails
      ensures !ok ==> unchanged(this)
      ensures ok ==> Layout() == old(AddNode(Layout(), level)).dir
      ensures ok ==> forall i: nat, l: nat | old(IsList(Layout(), i, l)) ::
                       IsList(Layout(), i, l) && LinksOf(i, l) == old(LinksOf(i, l))
      ensures ok ==> forall l: nat | l <= level ::
                       IsList(Layout(), |old(levels)|, l) && LinksOf(|old(levels)|, l) == []
    {
      hide Agrees, Links, IsList, Distinct, Contents, Grown;
      ghost var d, mem := Layout(), Memory();
      AgreesIsValid(d, mem);
      if level > maxLevel {
        return false;
      }
      if |levels| >= MAX_NODES {
        return false;
      }
      if level > 0 && arenaUsed + level * (1 + m) > arenaWords && |arenaChunks| >= maxChunks {
        return false;
      }
      if allocFails {
        return false;
      }
      AddNodeKeepsLists(d, mem, level);
      CommitNode(level);
      return true;
    }

    /** Address of a list: the shifts and masks of the source are divisions by the chunk sizes. */
    method ListPtr(id: nat, level: nat) returns (a: array<nat>, start: nat)
      requires Valid() && IsList(Layout(), id, level)
      ensures var p := ListPlaceOf(Layout(), id, level);
              && p.chunk < Chunks(Layout(), p.upper) && start == p.start
              && a == (if p.upper then arenaChunks else l0Chunks)[p.chunk]
              && start + ListWords(Layout(), level) <= a.Length
    {
      hide CountsFit, FreeIsZero, BlocksInOrder, Sizes, BaseCovered;
      ListInMem(Layout(), Memory(), id, level);
      if level == 0 {
        return l0Chunks[id / nodesPerChunk], (id % nodesPerChunk) * (1 + 2 * m);
      }
      var offset := upper[id];
      return arenaChunks[offset / arenaWords], offset % arenaWords + (level - 1) * (1 + m);
    }

    /** Overwrites one list; no other list changes. */
    method SetLinks(id: nat, level: nat, ids: seq<nat>)
      requires Valid() && IsList(Layout(), id, level) && |ids| <= Capacity(Layout(), level)
      modifies l0Chunks, arenaChunks
      ensures Valid() && LinksOf(id, level) == ids
      ensures forall i: nat, l: nat | IsList(Layout(), i, l) && (i != id || l != level) ::
                LinksOf(i, l) == old(LinksOf(i, l))
    {
      hide Agrees, IsList, Store;
      AgreesIsValid(Layout(), Memory());
      var a, start := ListPtr(id, level);
      ghost var p, mem := ListPlaceOf(Layout(), id, level), Memory();
      StoreChangesOneList(Layout(), mem, id, level, ids);
      WriteList(a, start, ids);
      assert Memory() == Store(mem, p, ids) by {
        StoredInMemory(mem, Memory(), p, ids);
      }
    }

    /** Appends one id if the list has room; no other list changes. */
    method TryAppendLink(id: nat, level: nat, neighbor: nat) returns (ok: bool)
      requires Valid() && IsList(Layout(), id, level)
      modifies l0Chunks, arenaChunks
      ensures Valid()
      ensures ok <==> |old(LinksOf(id, level))| < Capacity(Layout(), level)
      ensures LinksOf(id, level) == if ok then old(LinksOf(id, level)) + [neighbor] else old(LinksOf(id, level))
      ensures forall i: nat, l: nat | IsList(Layout(), i, l) && (i != id || l != level) ::
                LinksOf(i, l) == old(LinksOf(i, l))
    {
      hide Agrees, IsList, Store;
      AgreesIsValid(Layout(), Memory());
      var a, start := ListPtr(id, level);
      ghost var p, mem, was := ListPlaceOf(Layout(), id, level), Memory(), LinksOf(id, level);
      StoredList(Layout(), mem, id, level, a[..]);
      var count := a[start];
      if count >= (if level == 0 then 2 * m else m) {
        return false;
      }
      StoreChangesOneList(Layout(), mem, id, level, was + [neighbor]);
      ghost var chunk := a[..];
      a[start + 1 + count] := neighbor;
      a[start] := count + 1;
      AppendedChunk(chunk, a[..], start, was, neighbor);
      assert Memory() == Store(mem, p, was + [neighbor]) by {
        StoredInMemory(mem, Memory(), p, was + [neighbor]);
      }
      return true;
    }

    /** What a reader copies out of a list. */
    method CopyLinks(id: nat, level: nat) returns (ids: seq<nat>)
      requires Valid() && IsList(Layout(), id, level)
      ensures ids == LinksOf(id, level)
    {
      AgreesIsValid(Layout(), Memory());
      var a, start := ListPtr(id, level);
      StoredList(Layout(), Memory(), id, level, a[..]);
      var size := a[start];
      ids := [];
      while |ids| < size
        invariant |ids| <= size && ids == a[start + 1..start + 1 + |ids|]
      {
        ids := ids + [a[start + 1 + |ids|]];
      }
    }
  }

  /** A list as the words of its chunk. */
  lemma StoredList(d: Dir, mem: Mem, id: nat, level: nat, chunk: seq<nat>)
    requires Agrees(d, mem) && IsList(d, id, level)
    requires var p := ListPlaceOf(d, id, level); p.chunk < |Side(mem, p.upper)| && chunk == Side(mem, p.upper)[p.chunk]
    ensures var p, ids := ListPlaceOf(d, id, level), Links(d, mem, id, level);
            && p.start + 1 + Capacity(d, level) <= |chunk| && chunk[p.start] == |ids| <= Capacity(d, level)
            && chunk[p.start + 1..p.start + 1 + |ids|] == ids
  {
    hide Valid, FreeIsZero, SizesMatch, ListPlaceOf;
    CountOf(d, mem, id, level);
  }

  lemma AppendedChunk(was: seq<nat>, now: seq<nat>, start: nat, ids: seq<nat>, neighbor: nat)
    requires start + 1 + |ids| < |was| == |now| && was[start + 1..start + 1 + |ids|] == ids
    requires now == was[start + 1 + |ids| := neighbor][start := |ids| + 1]
    ensures now == StoreChunk(was, start, ids + [neighbor])
  {
    forall i: nat | i < |ids|
      ensures now[start + 1 + i] == ids[i]
    {
      assert was[start + 1 + i] == was[start + 1..start + 1 + |ids|][i];
    }
  }

  /** Replacing one chunk's words is `Store` on the memory as a whole. */
  lemma StoredInMemory(was: Mem, now: Mem, p: Place, ids: seq<nat>)
    requires InMem(was, p, 1 + |ids|) && |now.base| == |was.base| && |now.arena| == |was.arena|
    requires forall c: nat | c < |was.base| ::
               now.base[c] == if !p.upper && c == p.chunk then StoreChunk(was.base[c], p.start, ids) else was.base[c]
    requires forall c: nat | c < |was.arena| ::
               now.arena[c] == if p.upper && c == p.chunk then StoreChunk(was.arena[c], p.start, ids) else was.arena[c]
    ensures now == Store(was, p, ids)
  {
    assert now.base == Store(was, p, ids).base;
    assert now.arena == Store(was, p, ids).arena;
  }

  lemma AgreesIsValid(d: Dir, mem: Mem)
    requires Agrees(d, mem)
    ensures GraphLayout.Valid(d) && d.nodesPerChunk > 0 && SizesMatch(d, mem)
  {
  }
}
