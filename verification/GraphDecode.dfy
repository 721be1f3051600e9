/** The validating decoder of the graph sections, and the theorem that it inverts the canonical encoding. */
module GraphDecode {
  import opened Arithmetic
  import opened Options
  import opened LittleEndian
  import opened GraphLayout
  import opened GraphCodec

  // ----- one list -----

  /** The list at word `first` of a section is `ids`, canonically stored, and it is a valid list. */
  ghost predicate ListIs(section: seq<Byte>, first: nat, levels: seq<nat>, node: nat, l: nat, capacity: nat, ids: seq<nat>) {
    ListOk(levels, node, l, ids, capacity) && RegionReads(section, 4, first, Canon(ids, capacity))
  }

  /** Canonical storage, part by part. */
  lemma CanonWords(section: seq<Byte>, first: nat, ids: seq<nat>, capacity: nat)
    requires |ids| <= capacity
    ensures RegionReads(section, 4, first, Canon(ids, capacity)) <==>
              && Reads(section, 4, first, |ids|)
              && RegionReads(section, 4, first + 1, ids)
              && RegionReads(section, 4, first + 1 + |ids|, Blank(capacity - |ids|))
  {
    hide Reads, RegionReads, Blank;
    RegionAppend(section, 4, first, [|ids|] + ids, Blank(capacity - |ids|));
    RegionAppend(section, 4, first, [|ids|], ids);
    RegionOne(section, 4, first, |ids|);
  }

  lemma ReadsOneValue(section: seq<Byte>, k: nat, w: nat, u: nat, v: nat)
    requires Reads(section, k, w, u) && Reads(section, k, w, v)
    ensures u == v
  {
  }

  /** What the decoder has read of a list after `j` slots, and what it has checked. */
  ghost predicate ReadSoFar(section: seq<Byte>, first: nat, levels: seq<nat>, node: nat, l: nat, count: nat, ids: seq<nat>, j: nat) {
    && Reads(section, 4, first, count)
    && |ids| == (if j < count then j else count)
    && RegionReads(section, 4, first + 1, ids)
    && ListOk(levels, node, l, ids, |ids|)
    && RegionReads(section, 4, first + 1 + count, Blank(if j < count then 0 else j - count))
  }

  /** A list stored here has this count and starts with these ids. */
  lemma ListAgrees(section: seq<Byte>, first: nat, levels: seq<nat>, node: nat, l: nat, capacity: nat, count: nat,
                   ids: seq<nat>, j: nat, other: seq<nat>)
    requires ReadSoFar(section, first, levels, node, l, count, ids, j)
    requires ListIs(section, first, levels, node, l, capacity, other)
    ensures |other| == count && ids <= other
  {
    hide Reads, RegionReads, Blank;
    CanonWords(section, first, other, capacity);
    ReadsOneValue(section, 4, first, count, |other|);
    RegionsAgree(section, 4, first + 1, ids, other);
  }

  /** What the next word must be if a list is stored here. */
  lemma NextWordAllowed(section: seq<Byte>, first: nat, levels: seq<nat>, node: nat, l: nat, capacity: nat, count: nat,
                        ids: seq<nat>, j: nat, id: nat, other: seq<nat>)
    requires ReadSoFar(section, first, levels, node, l, count, ids, j) && j < capacity
    requires Reads(section, 4, first + 1 + j, id)
    ensures ListIs(section, first, levels, node, l, capacity, other) ==>
              if j >= count then id == EMPTY_SLOT else LinkOk(levels, node, l, id) && id !in ids
  {
    hide Reads, RegionReads, Canon;
    if ListIs(section, first, levels, node, l, capacity, other) {
      ListAgrees(section, first, levels, node, l, capacity, count, ids, j, other);
      CanonWords(section, first, other, capacity);
      if j < count {
        RegionWord(section, 4, first + 1, other, j);
        ReadsOneValue(section, 4, first + 1 + j, id, other[j]);
      } else {
        RegionWord(section, 4, first + 1 + count, Blank(capacity - count), j - count);
        ReadsOneValue(section, 4, first + 1 + j, id, EMPTY_SLOT);
      }
    }
  }

  lemma CountAllowed(section: seq<Byte>, first: nat, levels: seq<nat>, node: nat, l: nat, capacity: nat, count: nat, other: seq<nat>)
    requires Reads(section, 4, first, count)
    ensures ListIs(section, first, levels, node, l, capacity, other) ==> count <= capacity
  {
    hide Reads, RegionReads, Canon;
    if ListIs(section, first, levels, node, l, capacity, other) {
      CanonWords(section, first, other, capacity);
      ReadsOneValue(section, 4, first, count, |other|);
    }
  }

  lemma WordIsThere(section: seq<Byte>, w: nat)
    requires 4 * w + 4 <= |section|
    ensures Reads(section, 4, w, WordAt(section, 4, w))
  {
  }

  lemma NothingRead(section: seq<Byte>, first: nat, levels: seq<nat>, node: nat, l: nat, count: nat)
    requires Reads(section, 4, first, count)
    ensures ReadSoFar(section, first, levels, node, l, count, [], 0)
  {
  }

  lemma WholeListRead(section: seq<Byte>, first: nat, levels: seq<nat>, node: nat, l: nat, capacity: nat, count: nat, ids: seq<nat>)
    requires ReadSoFar(section, first, levels, node, l, count, ids, capacity) && count <= capacity
    ensures ListIs(section, first, levels, node, l, capacity, ids)
    ensures forall other | ListIs(section, first, levels, node, l, capacity, other) :: other == ids
  {
    hide Reads, RegionReads, Canon, Blank;
    CanonWords(section, first, ids, capacity);
    forall other | ListIs(section, first, levels, node, l, capacity, other)
      ensures other == ids
    {
      ListAgrees(section, first, levels, node, l, capacity, count, ids, capacity, other);
    }
  }

  lemma OneMoreId(section: seq<Byte>, first: nat, levels: seq<nat>, node: nat, l: nat, count: nat, ids: seq<nat>, j: nat, id: nat)
    requires ReadSoFar(section, first, levels, node, l, count, ids, j) && Reads(section, 4, first + 1 + j, id)
    ensures j < count && LinkOk(levels, node, l, id) && id !in ids ==>
              ReadSoFar(section, first, levels, node, l, count, ids + [id], j + 1)
    ensures j >= count && id == EMPTY_SLOT ==> ReadSoFar(section, first, levels, node, l, count, ids, j + 1)
  {
    hide Reads, RegionReads;
    if j < count {
      RegionNext(section, 4, first + 1, ids, id);
    } else {
      RegionNext(section, 4, first + 1 + count, Blank(j - count), id);
      if id == EMPTY_SLOT {
        assert Blank(j - count) + [id] == Blank(j + 1 - count);
      }
    }
  }

  /** Reads one list, stamping each id with the list's number to notice repetitions without sorting. */
  method DecodeList(section: seq<Byte>, first: nat, levels: seq<nat>, node: nat, l: nat, capacity: nat,
                    stamp: array<nat>, listNumber: nat)
    returns (ok: bool, ids: seq<nat>)
    requires stamp.Length == |levels| && forall x: nat | x < |levels| :: stamp[x] < listNumber
    requires 4 * (first + capacity) + 4 <= |section|
    modifies stamp
    ensures forall x: nat | x < |levels| :: stamp[x] <= listNumber
    ensures ok ==> ListIs(section, first, levels, node, l, capacity, ids)
    ensures forall other | ListIs(section, first, levels, node, l, capacity, other) :: ok && other == ids
  {
    hide Reads, WordAt, ListIs, ReadSoFar;
    var count := WordAt(section, 4, first);
    WordIsThere(section, first);
    NothingRead(section, first, levels, node, l, count);
    ids := [];
    forall other
      ensures ListIs(section, first, levels, node, l, capacity, other) ==> count <= capacity
    {
      CountAllowed(section, first, levels, node, l, capacity, count, other);
    }
    if count > capacity {
      return false, ids;
    }
    var j: nat := 0;
    while j < capacity
      invariant j <= capacity
      invariant ReadSoFar(section, first, levels, node, l, count, ids, j)
      invariant forall x: nat | x < |levels| :: stamp[x] <= listNumber
      invariant forall x: nat | x < |levels| :: stamp[x] == listNumber <==> x in ids
    {
      var id := WordAt(section, 4, first + 1 + j);
      WordIsThere(section, first + 1 + j);
      OneMoreId(section, first, levels, node, l, count, ids, j, id);
      forall other
        ensures ListIs(section, first, levels, node, l, capacity, other) ==>
                  if j >= count then id == EMPTY_SLOT else LinkOk(levels, node, l, id) && id !in ids
      {
        NextWordAllowed(section, first, levels, node, l, capacity, count, ids, j, id, other);
      }
      if j >= count {
        if id != EMPTY_SLOT {
          return false, ids;
        }
      } else {
        if id >= |levels| || id == node || levels[id] < l || stamp[id] == listNumber {
          return false, ids;
        }
        stamp[id] := listNumber;
        ids := ids + [id];
      }
      j := j + 1;
    }
    WholeListRead(section, first, levels, node, l, capacity, count, ids);
    ok := true;
  }

  // ----- one node -----

  function SectionOf(s: Sections, l: nat): seq<Byte> {
    if l == 0 then s.base else s.upper
  }

  /** First word of the list of node `i` on level `l` in its section. */
  function First(levels: seq<nat>, m: nat, i: nat, l: nat): nat
    requires i <= |levels|
  {
    if l == 0 then i * (1 + 2 * m) else Offset(levels, i, m) + (l - 1) * (1 + m)
  }

  ghost predicate NodeListIs(s: Sections, levels: seq<nat>, m: nat, i: nat, l: nat, ids: seq<nat>)
    requires i < |levels|
  {
    ListIs(SectionOf(s, l), First(levels, m, i, l), levels, i, l, ListCapacity(m, l), ids)
  }

  /** Node `i` is stored as `node`. */
  ghost predicate NodeIs(s: Sections, levels: seq<nat>, m: nat, i: nat, node: Node)
    requires i < |levels|
  {
    |node| == levels[i] + 1 && forall l: nat | l < |node| :: NodeListIs(s, levels, m, i, l, node[l])
  }

  predicate SizesAre(s: Sections, levels: seq<nat>, m: nat) {
    && |s.base| == 4 * (|levels| * (1 + 2 * m))
    && |s.index| == 8 * |levels|
    && |s.upper| == 4 * Offset(levels, |levels|, m)
  }

  lemma {:induction false} OffsetGrows(levels: seq<nat>, i: nat, n: nat, m: nat)
    requires i < n <= |levels|
    ensures Offset(levels, i, m) + levels[i] * (1 + m) <= Offset(levels, n, m)
    decreases n
  {
    if i < n - 1 {
      OffsetGrows(levels, i, n - 1, m);
    }
  }

  lemma Rows(i: nat, n: nat, stride: nat)
    requires i < n
    ensures i * stride + stride <= n * stride
  {
    Grows(i + 1, n, stride);
  }

  lemma ListInSection(s: Sections, levels: seq<nat>, m: nat, i: nat, l: nat)
    requires SizesAre(s, levels, m) && i < |levels| && l <= levels[i]
    ensures 4 * (First(levels, m, i, l) + ListCapacity(m, l)) + 4 <= |SectionOf(s, l)|
  {
    if l == 0 {
      Rows(i, |levels|, 1 + 2 * m);
    } else {
      OffsetGrows(levels, i, |levels|, m);
      Rows(l - 1, levels[i], 1 + m);
    }
  }

  method DecodeNode(s: Sections, levels: seq<nat>, m: nat, i: nat, expected: nat, stamp: array<nat>, listNumber: nat)
    returns (ok: bool, node: Node, lastNumber: nat)
    requires SizesAre(s, levels, m) && i < |levels| && expected == Offset(levels, i, m)
    requires stamp.Length == |levels| && forall x: nat | x < |levels| :: stamp[x] <= listNumber
    modifies stamp
    ensures forall x: nat | x < |levels| :: stamp[x] <= lastNumber
    ensures ok ==> NodeIs(s, levels, m, i, node)
    ensures forall other | NodeIs(s, levels, m, i, other) :: ok && other == node
  {
    hide ListIs, SizesAre, Offset;
    node := [];
    lastNumber := listNumber;
    var l: nat := 0;
    while l <= levels[i]
      invariant l <= levels[i] + 1 && |node| == l
      invariant forall x: nat | x < |levels| :: stamp[x] <= lastNumber
      invariant forall k: nat | k < l :: NodeListIs(s, levels, m, i, k, node[k])
      invariant forall k: nat, ids | k < l && NodeListIs(s, levels, m, i, k, ids) :: ids == node[k]
    {
      var first := if l == 0 then i * (1 + 2 * m) else expected + (l - 1) * (1 + m);
      var capacity := if l == 0 then 2 * m else m;
      lastNumber := lastNumber + 1;
      ListInSection(s, levels, m, i, l);
      var ids;
      ok, ids := DecodeList(SectionOf(s, l), first, levels, i, l, capacity, stamp, lastNumber);
      if !ok {
        forall other
          ensures !NodeIs(s, levels, m, i, other)
        {
          if |other| > l {
            assert !NodeListIs(s, levels, m, i, l, other[l]);
          }
        }
        return;
      }
      node := node + [ids];
      l := l + 1;
    }
    ok := true;
    forall other | NodeIs(s, levels, m, i, other)
      ensures other == node
    {
      forall k: nat | k < |other|
        ensures other[k] == node[k]
      {
        assert NodeListIs(s, levels, m, i, k, other[k]);
      }
    }
  }

  // ----- all sections against the canonical encoding -----

  ghost predicate NodesAre(s: Sections, levels: seq<nat>, m: nat, g: Graph, n: nat)
    requires n <= |g| == |levels|
  {
    forall i: nat | i < n :: NodeIs(s, levels, m, i, g[i])
  }

  function IndexWord(levels: seq<nat>, m: nat, i: nat): nat
    requires i < |levels|
  {
    if levels[i] == 0 then NO_BLOCK else Offset(levels, i, m)
  }

  ghost predicate IndexIs(s: Sections, levels: seq<nat>, m: nat, n: nat)
    requires n <= |levels|
  {
    forall i: nat | i < n :: Reads(s.index, 8, i, IndexWord(levels, m, i))
  }

  lemma {:induction false} IndexRegion(s: Sections, levels: seq<nat>, m: nat, n: nat)
    requires n <= |levels|
    ensures RegionReads(s.index, 8, 0, IndexWords(levels, n, m)) <==> IndexIs(s, levels, m, n)
  {
    hide Reads, Offset;
    if n == 0 {
    } else {
      IndexRegion(s, levels, m, n - 1);
      RegionAppend(s.index, 8, 0, IndexWords(levels, n - 1, m), [IndexWord(levels, m, n - 1)]);
      RegionOne(s.index, 8, n - 1, IndexWord(levels, m, n - 1));
    }
  }

  ghost predicate BaseListsAre(s: Sections, m: nat, g: Graph, n: nat)
    requires n <= |g| && HasLists(g)
  {
    forall i: nat | i < n :: RegionReads(s.base, 4, i * (1 + 2 * m), Canon(g[i][0], 2 * m))
  }

  lemma {:induction false} BaseRegion(s: Sections, g: Graph, n: nat, m: nat)
    requires n <= |g| && HasLists(g) && forall i: nat | i < n :: |g[i][0]| <= 2 * m
    ensures RegionReads(s.base, 4, 0, BaseWords(g, n, m)) <==> BaseListsAre(s, m, g, n)
  {
    hide RegionReads, Canon;
    if n == 0 {
      RegionOne(s.base, 4, 0, 0);
    } else {
      BaseRegion(s, g, n - 1, m);
      BaseSize(g, n - 1, m);
      RegionAppend(s.base, 4, 0, BaseWords(g, n - 1, m), Canon(g[n - 1][0], 2 * m));
    }
  }

  ghost predicate BlockIs(s: Sections, first: nat, node: Node, m: nat, l: nat)
    requires l < |node|
  {
    forall k: nat | 0 < k <= l :: RegionReads(s.upper, 4, first + (k - 1) * (1 + m), Canon(node[k], m))
  }

  lemma {:induction false} BlockRegion(s: Sections, first: nat, node: Node, l: nat, m: nat)
    requires l < |node| && forall k: nat | 0 < k <= l :: |node[k]| <= m
    ensures RegionReads(s.upper, 4, first, BlockOf(node, l, m)) <==> BlockIs(s, first, node, m, l)
  {
    hide RegionReads, Canon;
    if l == 0 {
      RegionOne(s.upper, 4, first, 0);
    } else {
      BlockRegion(s, first, node, l - 1, m);
      BlockSize(node, l - 1, m);
      RegionAppend(s.upper, 4, first, BlockOf(node, l - 1, m), Canon(node[l], m));
    }
  }

  ghost predicate BlocksAre(s: Sections, levels: seq<nat>, m: nat, g: Graph, n: nat)
    requires n <= |g| == |levels| && HasLists(g)
  {
    forall i: nat | i < n :: BlockIs(s, Offset(levels, i, m), g[i], m, |g[i]| - 1)
  }

  lemma {:induction false} UpperRegion(s: Sections, levels: seq<nat>, g: Graph, n: nat, m: nat)
    requires n <= |g| == |levels| && HasLists(g) && forall i: nat | i < |g| :: NodeOk(levels, i, g[i], m)
    ensures RegionReads(s.upper, 4, 0, UpperWords(g, n, m)) <==> BlocksAre(s, levels, m, g, n)
  {
    hide RegionReads, BlockIs, NodeOk;
    if n == 0 {
      RegionOne(s.upper, 4, 0, 0);
    } else {
      UpperRegion(s, levels, g, n - 1, m);
      UpperSize(g, levels, n - 1, m);
      NodeFits(levels, n - 1, g[n - 1], m);
      BlockRegion(s, Offset(levels, n - 1, m), g[n - 1], |g[n - 1]| - 1, m);
      RegionAppend(s.upper, 4, 0, UpperWords(g, n - 1, m), BlockOf(g[n - 1], |g[n - 1]| - 1, m));
    }
  }

  /** A node's lists in the two sections. */
  lemma NodeInSections(s: Sections, levels: seq<nat>, m: nat, i: nat, node: Node)
    requires i < |levels| && NodeOk(levels, i, node, m)
    ensures NodeIs(s, levels, m, i, node) <==>
              && RegionReads(s.base, 4, i * (1 + 2 * m), Canon(node[0], 2 * m))
              && BlockIs(s, Offset(levels, i, m), node, m, |node| - 1)
  {
    hide RegionReads, Canon, Offset;
    if NodeIs(s, levels, m, i, node) {
      assert NodeListIs(s, levels, m, i, 0, node[0]);
      forall k: nat | 0 < k < |node|
        ensures RegionReads(s.upper, 4, Offset(levels, i, m) + (k - 1) * (1 + m), Canon(node[k], m))
      {
        assert NodeListIs(s, levels, m, i, k, node[k]);
      }
    }
    if RegionReads(s.base, 4, i * (1 + 2 * m), Canon(node[0], 2 * m)) && BlockIs(s, Offset(levels, i, m), node, m, |node| - 1) {
      forall l: nat | l < |node|
        ensures NodeListIs(s, levels, m, i, l, node[l])
      {
        assert ListOk(levels, i, l, node[l], ListCapacity(m, l));
      }
    }
  }

  function AsLevels(bytes: seq<Byte>): seq<nat> {
    bytes
  }

  /** The sections are the canonical encoding of the valid graph `g`. */
  ghost predicate Encodes(g: Graph, shape: Shape, s: Sections) {
    && HasLists(g) && AreBytes(LevelsOf(g))
    && ValidGraph(g, LevelsOf(g), shape)
    && s == Encode(g, shape.m)
  }

  /** The same, read off the sections place by place, as the decoder does. */
  ghost predicate Described(g: Graph, shape: Shape, s: Sections) {
    && |g| == |s.levels| == shape.nodes
    && (forall i: nat | i < |s.levels| :: s.levels[i] <= shape.maxLevel)
    && EntryOk(s.levels, shape)
    && SizesAre(s, s.levels, shape.m)
    && IndexIs(s, s.levels, shape.m, |g|)
    && NodesAre(s, s.levels, shape.m, g, |g|)
  }

  /** Section sizes and parameters as the types of the source hold them. */
  predicate Representable(s: Sections, shape: Shape) {
    && shape.nodes <= MAX_NODES && 2 * shape.m < OFFSETS && |s.levels| <= NO_BLOCK
    && |s.base| <= NO_BLOCK && |s.index| <= NO_BLOCK && |s.upper| <= NO_BLOCK
  }

  lemma NodeIsOk(s: Sections, levels: seq<nat>, m: nat, i: nat, node: Node)
    requires i < |levels| && NodeIs(s, levels, m, i, node)
    ensures NodeOk(levels, i, node, m)
  {
    forall l: nat | l < |node|
      ensures ListOk(levels, i, l, node[l], ListCapacity(m, l))
    {
      assert NodeListIs(s, levels, m, i, l, node[l]);
    }
  }

  lemma DescribedNodes(g: Graph, shape: Shape, s: Sections)
    requires Described(g, shape, s)
    ensures HasLists(g) && LevelsOf(g) == AsLevels(s.levels) && ValidGraph(g, s.levels, shape)
  {
    hide NodeOk, EntryOk, SizesAre, IndexIs;
    var levels: seq<nat> := s.levels;
    forall i: nat | i < |g|
      ensures NodeOk(levels, i, g[i], shape.m) && |g[i]| == levels[i] + 1
    {
      assert NodeIs(s, levels, shape.m, i, g[i]);
      NodeIsOk(s, levels, shape.m, i, g[i]);
    }
  }

  /** The three word sections, read as words. */
  ghost predicate WordsRead(g: Graph, levels: seq<nat>, m: nat, s: Sections)
    requires HasLists(g) && |g| == |levels|
  {
    && RegionReads(s.base, 4, 0, BaseWords(g, |g|, m))
    && RegionReads(s.index, 8, 0, IndexWords(levels, |g|, m))
    && RegionReads(s.upper, 4, 0, UpperWords(g, |g|, m))
  }

  lemma WordsAreNodes(g: Graph, levels: seq<nat>, m: nat, s: Sections)
    requires HasLists(g) && |g| == |levels| && forall i: nat | i < |g| :: NodeOk(levels, i, g[i], m)
    ensures WordsRead(g, levels, m, s) <==> IndexIs(s, levels, m, |g|) && NodesAre(s, levels, m, g, |g|)
  {
    hide NodeOk, NodeIs, RegionReads, BlockIs, IndexIs, Canon, Offset;
    forall i: nat | i < |g|
      ensures |g[i][0]| <= 2 * m
      ensures NodeIs(s, levels, m, i, g[i]) <==>
                && RegionReads(s.base, 4, i * (1 + 2 * m), Canon(g[i][0], 2 * m))
                && BlockIs(s, Offset(levels, i, m), g[i], m, |g[i]| - 1)
    {
      NodeFits(levels, i, g[i], m);
      NodeInSections(s, levels, m, i, g[i]);
    }
    IndexRegion(s, levels, m, |g|);
    BaseRegion(s, g, |g|, m);
    UpperRegion(s, levels, g, |g|, m);
  }

  // ----- words that fit their width -----

  lemma FitAppend(a: seq<nat>, b: seq<nat>, k: nat)
    requires FitIn(a, k) && FitIn(b, k)
    ensures FitIn(a + b, k)
  {
  }

  lemma Widths()
    ensures Power(4) == OFFSETS && Power(8) == NO_BLOCK + 1
  {
    assert Power(2) == 0x1_0000 && Power(4) == 0x1_0000 * Power(2);
    assert Power(6) == 0x1_0000 * Power(4) && Power(8) == 0x1_0000 * Power(6);
  }

  lemma CanonFits(levels: seq<nat>, i: nat, l: nat, ids: seq<nat>, capacity: nat)
    requires ListOk(levels, i, l, ids, capacity) && |levels| <= MAX_NODES && capacity < OFFSETS
    ensures FitIn(Canon(ids, capacity), 4)
  {
    Widths();
    var w := Canon(ids, capacity);
    forall k: nat | k < |w|
      ensures w[k] < OFFSETS
    {
      if 0 < k <= |ids| {
        assert LinkOk(levels, i, l, ids[k - 1]);
      }
    }
  }

  lemma {:induction false} BaseFits(g: Graph, levels: seq<nat>, n: nat, m: nat)
    requires n <= |g| == |levels| <= MAX_NODES && HasLists(g) && 2 * m < OFFSETS
    requires forall i: nat | i < |g| :: NodeOk(levels, i, g[i], m)
    ensures FitIn(BaseWords(g, n, m), 4)
  {
    hide FitIn, Canon;
    if n == 0 {
      NothingToFit(4);
    } else {
      BaseFits(g, levels, n - 1, m);
      assert ListOk(levels, n - 1, 0, g[n - 1][0], ListCapacity(m, 0));
      CanonFits(levels, n - 1, 0, g[n - 1][0], 2 * m);
      FitAppend(BaseWords(g, n - 1, m), Canon(g[n - 1][0], 2 * m), 4);
    }
  }

  lemma NothingToFit(k: nat)
    ensures FitIn([], k)
  {
  }

  lemma {:induction false} BlockFits4(levels: seq<nat>, i: nat, node: Node, l: nat, m: nat)
    requires l < |node| && |levels| <= MAX_NODES && 2 * m < OFFSETS && NodeOk(levels, i, node, m)
    ensures FitIn(BlockOf(node, l, m), 4)
  {
    hide FitIn, Canon;
    if l == 0 {
      NothingToFit(4);
    } else {
      BlockFits4(levels, i, node, l - 1, m);
      assert ListOk(levels, i, l, node[l], ListCapacity(m, l));
      CanonFits(levels, i, l, node[l], m);
      FitAppend(BlockOf(node, l - 1, m), Canon(node[l], m), 4);
    }
  }

  lemma {:induction false} UpperFits(g: Graph, levels: seq<nat>, n: nat, m: nat)
    requires n <= |g| == |levels| <= MAX_NODES && HasLists(g) && 2 * m < OFFSETS
    requires forall i: nat | i < |g| :: NodeOk(levels, i, g[i], m)
    ensures FitIn(UpperWords(g, n, m), 4)
  {
    hide FitIn, NodeOk;
    if n == 0 {
      NothingToFit(4);
    } else {
      UpperFits(g, levels, n - 1, m);
      BlockFits4(levels, n - 1, g[n - 1], |g[n - 1]| - 1, m);
      FitAppend(UpperWords(g, n - 1, m), BlockOf(g[n - 1], |g[n - 1]| - 1, m), 4);
    }
  }

  lemma {:induction false} IndexFits(levels: seq<nat>, n: nat, m: nat)
    requires n <= |levels| && Offset(levels, |levels|, m) <= NO_BLOCK
    ensures FitIn(IndexWords(levels, n, m), 8)
  {
    hide FitIn;
    Widths();
    if n == 0 {
      NothingToFit(8);
    } else {
      IndexFits(levels, n - 1, m);
      OffsetGrows(levels, n - 1, |levels|, m);
      assert FitIn([IndexWord(levels, m, n - 1)], 8) by { OneFits(IndexWord(levels, m, n - 1), 8); }
      FitAppend(IndexWords(levels, n - 1, m), [IndexWord(levels, m, n - 1)], 8);
    }
  }

  lemma OneFits(v: nat, k: nat)
    ensures v < Power(k) ==> FitIn([v], k)
  {
  }

  /** Reading the sections place by place finds `g` exactly when they are the canonical encoding of `g`. */
  lemma DescribedIsEncoded(g: Graph, shape: Shape, s: Sections)
    requires Representable(s, shape)
    ensures Described(g, shape, s) <==> Encodes(g, shape, s)
  {
    if Described(g, shape, s) {
      DescribedNodes(g, shape, s);
      ReadIsEncoded(g, shape, s);
    }
    if Encodes(g, shape, s) {
      EncodedIsRead(g, shape, s);
    }
  }

  lemma ReadIsEncoded(g: Graph, shape: Shape, s: Sections)
    requires Described(g, shape, s) && HasLists(g) && LevelsOf(g) == AsLevels(s.levels) && ValidGraph(g, s.levels, shape)
    ensures Encodes(g, shape, s)
  {
    hide NodeOk, NodeIs, RegionReads, Bytes, FitIn, EntryOk, IndexIs, NodesAre, BaseWords, UpperWords, IndexWords, Offset;
    var levels, m := s.levels, shape.m;
    WordsAreNodes(g, levels, m, s);
    forall i: nat | i < |g|
      ensures |g[i][0]| <= 2 * m
    {
      NodeFits(levels, i, g[i], m);
    }
    BaseSize(g, |g|, m);
    UpperSize(g, levels, |g|, m);
    RegionFits(s.base, BaseWords(g, |g|, m), 4);
    RegionFits(s.index, IndexWords(levels, |g|, m), 8);
    RegionFits(s.upper, UpperWords(g, |g|, m), 4);
    BytesAreWords(s.base, BaseWords(g, |g|, m), 4);
    BytesAreWords(s.index, IndexWords(levels, |g|, m), 8);
    BytesAreWords(s.upper, UpperWords(g, |g|, m), 4);
  }

  lemma EncodedIsRead(g: Graph, shape: Shape, s: Sections)
    requires Encodes(g, shape, s) && Representable(s, shape)
    ensures Described(g, shape, s)
  {
    hide NodeOk, NodeIs, RegionReads, Bytes, FitIn, EntryOk, IndexIs, NodesAre, BaseWords, UpperWords, IndexWords, Offset;
    var levels, m := LevelsOf(g), shape.m;
    forall i: nat | i < |g|
      ensures |g[i][0]| <= 2 * m
    {
      NodeFits(levels, i, g[i], m);
    }
    BaseSize(g, |g|, m);
    UpperSize(g, levels, |g|, m);
    BaseFits(g, levels, |g|, m);
    UpperFits(g, levels, |g|, m);
    IndexFits(levels, |g|, m);
    BytesAreWords(s.base, BaseWords(g, |g|, m), 4);
    BytesAreWords(s.index, IndexWords(levels, |g|, m), 8);
    BytesAreWords(s.upper, UpperWords(g, |g|, m), 4);
    WordsAreNodes(g, levels, m, s);
  }

  // ----- the decoder -----

  const ARENA_WORDS: nat := 0x1_0000

  /** A fresh graph's directory after a node for each of the first `n` levels. */
  function Laid(shape: Shape, nodesPerChunk: nat, levels: seq<nat>, n: nat): Added
    requires nodesPerChunk > 0 && n <= |levels|
    ensures Laid(shape, nodesPerChunk, levels, n).Added? ==> Laid(shape, nodesPerChunk, levels, n).dir.nodesPerChunk > 0
  {
    if n == 0 then Added(Empty(shape.m, shape.maxLevel, nodesPerChunk, ARENA_WORDS, ARENA_WORDS))
    else
      match Laid(shape, nodesPerChunk, levels, n - 1)
      case Added(d) => AddNode(d, levels[n - 1])
      case Refused(why) => Refused(why)
  }

  /** The store can hold nodes of these levels: its parameters are accepted and the arena does not run out. */
  predicate Storable(shape: Shape, nodesPerChunk: nat, levels: seq<nat>)
    requires nodesPerChunk > 0
  {
    && shape.m >= 2 && shape.maxLevel >= 1 && shape.maxLevel * (1 + shape.m) <= ARENA_WORDS
    && Laid(shape, nodesPerChunk, levels, |levels|).Added?
  }

  lemma {:induction false} RefusedStays(shape: Shape, nodesPerChunk: nat, levels: seq<nat>, i: nat, n: nat)
    requires nodesPerChunk > 0 && i <= n <= |levels| && Laid(shape, nodesPerChunk, levels, i).Refused?
    ensures Laid(shape, nodesPerChunk, levels, n).Refused?
    decreases n
  {
    if i < n {
      RefusedStays(shape, nodesPerChunk, levels, i, n - 1);
    }
  }

  datatype Decoded = Decoded(graph: Graph) | Corrupt

  /** A product as 64 bits hold it, or nothing. */
  function CheckedMul(a: nat, b: nat): Option<nat> {
    if a * b <= NO_BLOCK then Some(a * b) else None
  }

  /** Words of upper lists the levels call for, added up with overflow checks. */
  method UpperLinkWords(levels: seq<Byte>, m: nat) returns (words: Option<nat>)
    ensures words == if Offset(levels, |levels|, m) <= NO_BLOCK then Some(Offset(levels, |levels|, m)) else None
  {
    var sum: nat := 0;
    var i: nat := 0;
    ghost var all: seq<nat> := levels;
    while i < |levels|
      invariant i <= |levels| && sum == Offset(all, i, m) <= NO_BLOCK
    {
      OffsetGrows(all, i, |all|, m);
      var block := CheckedMul(levels[i], 1 + m);
      if block.None? || sum + block.value > NO_BLOCK {
        return None;
      }
      sum := sum + block.value;
      i := i + 1;
    }
    return Some(sum);
  }

  /** The checks before any list is read. */
  method CheckShape(s: Sections, shape: Shape) returns (ok: bool)
    requires Representable(s, shape)
    ensures ok <==> && |s.levels| == shape.nodes && SizesAre(s, s.levels, shape.m) && EntryOk(s.levels, shape)
                    && forall i: nat | i < |s.levels| :: s.levels[i] <= shape.maxLevel
  {
    var n, m := shape.nodes, shape.m;
    var words := CheckedMul(n, 2 * m + 1);
    var baseBytes := if words.Some? then CheckedMul(words.value, 4) else None;
    var indexBytes := CheckedMul(n, 8);
    if |s.levels| != n || baseBytes.None? || |s.base| != baseBytes.value || indexBytes.None? || |s.index| != indexBytes.value {
      return false;
    }
    var top: nat := 0;
    var i: nat := 0;
    while i < n
      invariant i <= n
      invariant forall j: nat | j < i :: s.levels[j] <= shape.maxLevel && s.levels[j] <= top
      invariant top == 0 || exists j: nat :: j < i && s.levels[j] == top
    {
      var level: nat := s.levels[i];
      if level > shape.maxLevel {
        return false;
      }
      top := if level > top then level else top;
      i := i + 1;
    }
    if n == 0 {
      if shape.entryPoint != EMPTY_SLOT || shape.entryLevel != 0 {
        return false;
      }
    } else if shape.entryPoint >= n || s.levels[shape.entryPoint] != shape.entryLevel || shape.entryLevel != top {
      return false;
    }
    var upperWords := UpperLinkWords(s.levels, m);
    var upperBytes := if upperWords.Some? then CheckedMul(upperWords.value, 4) else None;
    if upperBytes.None? || |s.upper| != upperBytes.value {
      return false;
    }
    return true;
  }

  ghost predicate OnlyNode(s: Sections, levels: seq<nat>, m: nat, i: nat, node: Node)
    requires i < |levels|
  {
    NodeIs(s, levels, m, i, node) && forall other | NodeIs(s, levels, m, i, other) :: other == node
  }

  /** What has been decoded so far is stored there, and nothing else is. */
  ghost predicate DecodedSoFar(s: Sections, levels: seq<nat>, m: nat, graph: Graph) {
    && |graph| <= |levels| && IndexIs(s, levels, m, |graph|)
    && forall i: nat | i < |graph| :: OnlyNode(s, levels, m, i, graph[i])
  }

  lemma DecodedAll(s: Sections, shape: Shape, graph: Graph)
    requires DecodedSoFar(s, s.levels, shape.m, graph) && |graph| == |s.levels| == shape.nodes
    requires SizesAre(s, s.levels, shape.m) && EntryOk(s.levels, shape)
    requires forall i: nat | i < |s.levels| :: s.levels[i] <= shape.maxLevel
    ensures Described(graph, shape, s)
    ensures forall g | Described(g, shape, s) :: g == graph
  {
    hide NodeIs, EntryOk, SizesAre, IndexIs;
    var levels: seq<nat> := s.levels;
    forall i: nat | i < |graph|
      ensures NodeIs(s, levels, shape.m, i, graph[i])
    {
      assert OnlyNode(s, levels, shape.m, i, graph[i]);
    }
    forall g | Described(g, shape, s)
      ensures g == graph
    {
      forall i: nat | i < |graph|
        ensures g[i] == graph[i]
      {
        assert NodeIs(s, levels, shape.m, i, g[i]);
        assert OnlyNode(s, levels, shape.m, i, graph[i]);
      }
    }
  }

  /** Compares a node's index entry with the only one the canonical encoding allows. */
  method CheckIndex(s: Sections, levels: seq<nat>, m: nat, i: nat, expected: nat) returns (ok: bool)
    requires SizesAre(s, levels, m) && i < |levels| && expected == Offset(levels, i, m)
    ensures ok <==> Reads(s.index, 8, i, IndexWord(levels, m, i))
  {
    hide SizesAre, Offset;
    IndexInSection(s, levels, m, i);
    var offset := WordAt(s.index, 8, i);
    ok := offset == (if levels[i] == 0 then NO_BLOCK else expected);
  }

  /** Reads the lists of node `|graph|`. */
  method DecodeNext(s: Sections, levels: seq<nat>, m: nat, graph: Graph, expected: nat, stamp: array<nat>, listNumber: nat)
    returns (ok: bool, longer: Graph, lastNumber: nat)
    requires SizesAre(s, levels, m) && |graph| < |levels| && expected == Offset(levels, |graph|, m)
    requires DecodedSoFar(s, levels, m, graph) && Reads(s.index, 8, |graph|, IndexWord(levels, m, |graph|))
    requires stamp.Length == |levels| && forall x: nat | x < |levels| :: stamp[x] <= listNumber
    modifies stamp
    ensures forall x: nat | x < |levels| :: stamp[x] <= lastNumber
    ensures ok ==> |longer| == |graph| + 1 && DecodedSoFar(s, levels, m, longer)
    ensures !ok ==> forall g: Graph | |g| == |levels| :: !NodesAre(s, levels, m, g, |levels|)
  {
    hide SizesAre, NodeIs, Reads, Offset;
    var i := |graph|;
    longer := graph;
    var node;
    ok, node, lastNumber := DecodeNode(s, levels, m, i, expected, stamp, listNumber);
    if ok {
      longer := graph + [node];
      assert forall j: nat | j < i :: longer[j] == graph[j];
    } else {
      forall g: Graph | |g| == |levels|
        ensures !NodesAre(s, levels, m, g, |levels|)
      {
        assert !NodeIs(s, levels, m, i, g[i]);
      }
    }
  }

  /** The node loop, after the checks of the shape. */
  method DecodeNodes(s: Sections, shape: Shape, nodesPerChunk: nat) returns (r: Decoded)
    requires |s.levels| == shape.nodes && SizesAre(s, s.levels, shape.m) && EntryOk(s.levels, shape) && nodesPerChunk > 0
    requires forall i: nat | i < |s.levels| :: s.levels[i] <= shape.maxLevel
    ensures r.Decoded? ==> Described(r.graph, shape, s) && Laid(shape, nodesPerChunk, s.levels, |s.levels|).Added?
    ensures forall g | Described(g, shape, s) && Laid(shape, nodesPerChunk, s.levels, |s.levels|).Added? :: r == Decoded(g)
  {
    hide EntryOk, SizesAre, Offset, IndexIs, NodesAre, DecodedSoFar;
    var m := shape.m;
    var levels: seq<nat> := s.levels;
    var added := Added(Empty(m, shape.maxLevel, nodesPerChunk, ARENA_WORDS, ARENA_WORDS));
    var stamp := new nat[|levels|](_ => 0);
    var listNumber, expected: nat := 0, 0;
    var graph: Graph := [];
    NoneDecoded(s, levels, m);
    while |graph| < |levels|
      invariant |graph| <= |levels| && expected == Offset(levels, |graph|, m)
      invariant added.Added? && added == Laid(shape, nodesPerChunk, levels, |graph|)
      invariant forall x: nat | x < |levels| :: stamp[x] <= listNumber
      invariant DecodedSoFar(s, levels, m, graph)
    {
      var i := |graph|;
      var ok := CheckIndex(s, levels, m, i, expected);
      IndexAll(s, levels, m, i);
      if !ok {
        return Corrupt;
      }
      added := AddNode(added.dir, levels[i]);
      if added.Refused? {
        RefusedStays(shape, nodesPerChunk, levels, i + 1, |levels|);
        return Corrupt;
      }
      ok, graph, listNumber := DecodeNext(s, levels, m, graph, expected, stamp, listNumber);
      if !ok {
        return Corrupt;
      }
      NextOffset(levels, i, m);
      expected := expected + levels[i] * (1 + m);
    }
    DecodedAll(s, shape, graph);
    return Decoded(graph);
  }

  /** Decodes exactly the canonical encodings of valid graphs that the store can hold, each to its graph. */
  method Decode(s: Sections, shape: Shape, nodesPerChunk: nat) returns (r: Decoded)
    requires Representable(s, shape) && nodesPerChunk > 0
    ensures r.Decoded? ==> Encodes(r.graph, shape, s) && Storable(shape, nodesPerChunk, s.levels)
    ensures forall g | Encodes(g, shape, s) && Storable(shape, nodesPerChunk, s.levels) :: r == Decoded(g)
  {
    hide Encodes, EntryOk, SizesAre, IndexIs, NodesAre, Laid;
    forall g
      ensures Encodes(g, shape, s) <==> Described(g, shape, s)
    {
      DescribedIsEncoded(g, shape, s);
    }
    var ok := CheckShape(s, shape);
    if !ok {
      return Corrupt;
    }
    if shape.m < 2 || shape.maxLevel < 1 || shape.maxLevel * (1 + shape.m) > ARENA_WORDS {
      return Corrupt;
    }
    r := DecodeNodes(s, shape, nodesPerChunk);
  }

  lemma IndexAll(s: Sections, levels: seq<nat>, m: nat, i: nat)
    requires i < |levels|
    ensures IndexIs(s, levels, m, |levels|) ==> Reads(s.index, 8, i, IndexWord(levels, m, i))
  {
    hide Reads;
  }

  lemma NoneDecoded(s: Sections, levels: seq<nat>, m: nat)
    ensures DecodedSoFar(s, levels, m, []) && Offset(levels, 0, m) == 0
  {
  }

  lemma NextOffset(levels: seq<nat>, i: nat, m: nat)
    requires i < |levels|
    ensures Offset(levels, i + 1, m) == Offset(levels, i, m) + levels[i] * (1 + m)
  {
  }

  lemma IndexInSection(s: Sections, levels: seq<nat>, m: nat, i: nat)
    requires SizesAre(s, levels, m) && i < |levels|
    ensures 8 * i + 8 <= |s.index| && Reads(s.index, 8, i, WordAt(s.index, 8, i))
  {
  }
}
