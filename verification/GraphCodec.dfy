/**
  * The graph sections of an index file: levels, level-0 lists, the index of upper blocks and the upper lists,
  * written canonically and decoded with validation.
  */
module GraphCodec {
  import opened LittleEndian
  import opened GraphLayout

  const EMPTY_SLOT: nat := 0xFFFF_FFFF
  const NO_BLOCK: nat := 0xFFFF_FFFF_FFFF_FFFF

  /** A node's link lists, level 0 first; a graph is its nodes in id order. */
  type Node = seq<seq<nat>>
  type Graph = seq<Node>

  datatype Shape = Shape(m: nat, maxLevel: nat, nodes: nat, entryPoint: nat, entryLevel: nat)

  datatype Sections = Sections(levels: seq<Byte>, base: seq<Byte>, index: seq<Byte>, upper: seq<Byte>)

  // ----- valid graphs -----

  predicate DistinctIds(ids: seq<nat>) {
    forall i, j :: 0 <= i < j < |ids| ==> ids[i] != ids[j]
  }

  /** A link of node `node` on level `l`. */
  predicate LinkOk(levels: seq<nat>, node: nat, l: nat, id: nat) {
    id < |levels| && id != node && levels[id] >= l
  }

  predicate ListOk(levels: seq<nat>, node: nat, l: nat, ids: seq<nat>, capacity: nat) {
    && |ids| <= capacity && DistinctIds(ids)
    && forall j: nat | j < |ids| :: LinkOk(levels, node, l, ids[j])
  }

  function ListCapacity(m: nat, l: nat): nat {
    if l == 0 then 2 * m else m
  }

  predicate NodeOk(levels: seq<nat>, i: nat, node: Node, m: nat) {
    && i < |levels| && |node| == levels[i] + 1
    && forall l: nat | l < |node| :: ListOk(levels, i, l, node[l], ListCapacity(m, l))
  }

  predicate EntryOk(levels: seq<nat>, shape: Shape) {
    if levels == [] then shape.entryPoint == EMPTY_SLOT && shape.entryLevel == 0
    else
      && shape.entryPoint < |levels| && levels[shape.entryPoint] == shape.entryLevel
      && forall i: nat | i < |levels| :: levels[i] <= shape.entryLevel
  }

  /** What the graph validator accepts, with the entry point and parameters of `shape`. */
  predicate ValidGraph(g: Graph, levels: seq<nat>, shape: Shape) {
    && |g| == |levels| == shape.nodes
    && (forall i: nat | i < |levels| :: levels[i] <= shape.maxLevel)
    && (forall i: nat | i < |g| :: NodeOk(levels, i, g[i], shape.m))
    && EntryOk(levels, shape)
  }

  /**
    * What insertion leaves behind when no link is in flight, whatever links have failed: levels and lists are in
    * order, and the entry point is a node of its own level, or there is none. Nodes that were never linked may lie
    * above it.
    */
  predicate KeptGraph(g: Graph, levels: seq<nat>, shape: Shape) {
    && |g| == |levels| == shape.nodes
    && (forall i: nat | i < |levels| :: levels[i] <= shape.maxLevel)
    && (forall i: nat | i < |g| :: NodeOk(levels, i, g[i], shape.m))
    && (if shape.entryPoint == EMPTY_SLOT then shape.entryLevel == 0
        else shape.entryPoint < |levels| && levels[shape.entryPoint] == shape.entryLevel)
  }

  // ----- the canonical encoding -----

  function Blank(n: nat): seq<nat> {
    seq(n, _ => EMPTY_SLOT)
  }

  /** One list as it is written: its count, its ids, and empty slots up to the capacity. */
  function Canon(ids: seq<nat>, capacity: nat): (w: seq<nat>)
    ensures |ids| <= capacity ==> |w| == 1 + capacity
  {
    [|ids|] + ids + Blank(if |ids| <= capacity then capacity - |ids| else 0)
  }

  function BaseWords(g: Graph, n: nat, m: nat): seq<nat>
    requires n <= |g| && forall i: nat | i < |g| :: |g[i]| > 0
  {
    if n == 0 then [] else BaseWords(g, n - 1, m) + Canon(g[n - 1][0], 2 * m)
  }

  /** The lists of levels 1 to `l` of a node. */
  function BlockOf(node: Node, l: nat, m: nat): seq<nat>
    requires l < |node|
  {
    if l == 0 then [] else BlockOf(node, l - 1, m) + Canon(node[l], m)
  }

  function UpperWords(g: Graph, n: nat, m: nat): seq<nat>
    requires n <= |g| && forall i: nat | i < |g| :: |g[i]| > 0
  {
    if n == 0 then [] else UpperWords(g, n - 1, m) + BlockOf(g[n - 1], |g[n - 1]| - 1, m)
  }

  /** Words of upper lists before node `n`. */
  function Offset(levels: seq<nat>, n: nat, m: nat): nat
    requires n <= |levels|
  {
    if n == 0 then 0 else Offset(levels, n - 1, m) + levels[n - 1] * (1 + m)
  }

  function IndexWords(levels: seq<nat>, n: nat, m: nat): (w: seq<nat>)
    requires n <= |levels|
    ensures |w| == n
  {
    if n == 0 then []
    else IndexWords(levels, n - 1, m) + [if levels[n - 1] == 0 then NO_BLOCK else Offset(levels, n - 1, m)]
  }

  predicate HasLists(g: Graph) {
    forall i: nat | i < |g| :: |g[i]| > 0
  }

  function LevelsOf(g: Graph): (levels: seq<nat>)
    requires HasLists(g)
    ensures |levels| == |g|
  {
    seq(|g|, i requires 0 <= i < |g| => |g[i]| - 1)
  }

  predicate AreBytes(levels: seq<nat>) {
    forall i: nat | i < |levels| :: levels[i] < 256
  }

  function LevelBytes(levels: seq<nat>): (bytes: seq<Byte>)
    requires AreBytes(levels)
    ensures bytes == levels
  {
    seq(|levels|, i requires 0 <= i < |levels| => levels[i])
  }

  function Encode(g: Graph, m: nat): Sections
    requires HasLists(g) && AreBytes(LevelsOf(g))
  {
    var levels := LevelsOf(g);
    Sections(LevelBytes(levels), Bytes(BaseWords(g, |g|, m), 4), Bytes(IndexWords(levels, |g|, m), 8),
             Bytes(UpperWords(g, |g|, m), 4))
  }

  // ----- sizes -----

  lemma {:induction false} BaseSize(g: Graph, n: nat, m: nat)
    requires n <= |g| && HasLists(g) && forall i: nat | i < n :: |g[i][0]| <= 2 * m
    ensures |BaseWords(g, n, m)| == n * (1 + 2 * m)
  {
    if n > 0 {
      BaseSize(g, n - 1, m);
      assert n * (1 + 2 * m) == (n - 1) * (1 + 2 * m) + (1 + 2 * m);
    }
  }

  lemma {:induction false} BlockSize(node: Node, l: nat, m: nat)
    requires l < |node| && forall k: nat | 0 < k <= l :: |node[k]| <= m
    ensures |BlockOf(node, l, m)| == l * (1 + m)
  {
    if l > 0 {
      BlockSize(node, l - 1, m);
      assert l * (1 + m) == (l - 1) * (1 + m) + (1 + m);
    }
  }

  lemma NodeFits(levels: seq<nat>, i: nat, node: Node, m: nat)
    requires NodeOk(levels, i, node, m)
    ensures |node| == levels[i] + 1 && |node[0]| <= 2 * m && forall k: nat | 0 < k < |node| :: |node[k]| <= m
  {
    forall k: nat | k < |node|
      ensures |node[k]| <= ListCapacity(m, k)
    {
      assert ListOk(levels, i, k, node[k], ListCapacity(m, k));
    }
  }

  lemma {:induction false} UpperSize(g: Graph, levels: seq<nat>, n: nat, m: nat)
    requires n <= |g| == |levels| && HasLists(g) && forall i: nat | i < |g| :: NodeOk(levels, i, g[i], m)
    ensures |UpperWords(g, n, m)| == Offset(levels, n, m)
  {
    hide NodeOk;
    if n > 0 {
      UpperSize(g, levels, n - 1, m);
      NodeFits(levels, n - 1, g[n - 1], m);
      BlockSize(g[n - 1], levels[n - 1], m);
    }
  }

  // ----- the writers -----

  lemma BytesSnoc(words: seq<nat>, v: nat, k: nat)
    ensures Bytes(words + [v], k) == Bytes(words, k) + PutLe(v, k)
  {
    hide PutLe;
    assert (words + [v])[..|words|] == words;
  }

  lemma {:induction false} BytesAppend(a: seq<nat>, b: seq<nat>, k: nat)
    ensures Bytes(a + b, k) == Bytes(a, k) + Bytes(b, k)
  {
    hide Bytes, PutLe;
    if b == [] {
      NoBytes(k);
      assert a + b == a;
    } else {
      var front, last := b[..|b| - 1], b[|b| - 1];
      BytesAppend(a, front, k);
      BytesSnoc(a + front, last, k);
      BytesSnoc(front, last, k);
      assert a + b == a + front + [last] && b == front + [last];
    }
  }

  /** Writes one list through a buffer of empty slots. */
  method WriteList(out: seq<Byte>, ids: seq<nat>, capacity: nat) returns (longer: seq<Byte>)
    requires |ids| <= capacity
    ensures longer == out + Bytes(Canon(ids, capacity), 4)
  {
    var buffer := new nat[capacity + 1](_ => EMPTY_SLOT);
    buffer[0] := |ids|;
    var j: nat := 0;
    while j < |ids|
      invariant j <= |ids| && buffer[0] == |ids|
      invariant forall i: nat | 1 <= i <= j :: buffer[i] == ids[i - 1]
      invariant forall i: nat | j < i <= capacity :: buffer[i] == EMPTY_SLOT
    {
      buffer[1 + j] := ids[j];
      j := j + 1;
    }
    assert buffer[..] == Canon(ids, capacity);
    longer := out + Bytes(buffer[..], 4);
  }

  method WriteBase(g: Graph, m: nat) returns (out: seq<Byte>)
    requires HasLists(g) && forall i: nat | i < |g| :: |g[i][0]| <= 2 * m
    ensures out == Bytes(BaseWords(g, |g|, m), 4)
  {
    hide Bytes, Canon;
    out := [];
    var i: nat := 0;
    assert out == Bytes([], 4) by { NoBytes(4); }
    while i < |g|
      invariant i <= |g| && out == Bytes(BaseWords(g, i, m), 4)
    {
      BytesAppend(BaseWords(g, i, m), Canon(g[i][0], 2 * m), 4);
      out := WriteList(out, g[i][0], 2 * m);
      i := i + 1;
    }
  }

  lemma NoBytes(k: nat)
    ensures Bytes([], k) == []
  {
  }

  method WriteUpper(g: Graph, m: nat) returns (out: seq<Byte>)
    requires HasLists(g) && forall i: nat, l: nat | i < |g| && 0 < l < |g[i]| :: |g[i][l]| <= m
    ensures out == Bytes(UpperWords(g, |g|, m), 4)
  {
    hide Bytes, Canon;
    out := [];
    var i: nat := 0;
    assert out == Bytes([], 4) by { NoBytes(4); }
    while i < |g|
      invariant i <= |g| && out == Bytes(UpperWords(g, i, m), 4)
    {
      var l: nat := 1;
      assert UpperWords(g, i, m) + [] == UpperWords(g, i, m);
      while l < |g[i]|
        invariant 1 <= l <= |g[i]|
        invariant out == Bytes(UpperWords(g, i, m) + BlockOf(g[i], l - 1, m), 4)
      {
        BytesAppend(UpperWords(g, i, m) + BlockOf(g[i], l - 1, m), Canon(g[i][l], m), 4);
        assert UpperWords(g, i, m) + BlockOf(g[i], l, m)
            == UpperWords(g, i, m) + BlockOf(g[i], l - 1, m) + Canon(g[i][l], m);
        out := WriteList(out, g[i][l], m);
        l := l + 1;
      }
      i := i + 1;
    }
  }

  method WriteIndex(levels: seq<nat>, m: nat) returns (out: seq<Byte>)
    ensures out == Bytes(IndexWords(levels, |levels|, m), 8)
  {
    hide Bytes;
    out := [];
    var offset, i: nat := 0, 0;
    assert out == Bytes([], 8) by { NoBytes(8); }
    while i < |levels|
      invariant i <= |levels| && offset == Offset(levels, i, m)
      invariant out == Bytes(IndexWords(levels, i, m), 8)
    {
      var word := if levels[i] == 0 then NO_BLOCK else offset;
      BytesAppend(IndexWords(levels, i, m), [word], 8);
      out := out + Bytes([word], 8);
      if levels[i] != 0 {
        offset := offset + levels[i] * (1 + m);
      }
      i := i + 1;
    }
  }

  /** Writes all four sections of a graph. */
  method Write(g: Graph, m: nat) returns (s: Sections)
    requires HasLists(g) && AreBytes(LevelsOf(g))
    requires forall i: nat, l: nat | i < |g| && l < |g[i]| :: |g[i][l]| <= ListCapacity(m, l)
    ensures s == Encode(g, m)
  {
    hide Bytes, BaseWords, UpperWords, IndexWords;
    forall i: nat | i < |g|
      ensures |g[i][0]| <= 2 * m
    {
      assert ListCapacity(m, 0) == 2 * m;
    }
    forall i: nat, l: nat | i < |g| && 0 < l < |g[i]|
      ensures |g[i][l]| <= m
    {
      assert ListCapacity(m, l) == m;
    }
    var base := WriteBase(g, m);
    var index := WriteIndex(LevelsOf(g), m);
    var upper := WriteUpper(g, m);
    s := Sections(LevelBytes(LevelsOf(g)), base, index, upper);
  }
}
