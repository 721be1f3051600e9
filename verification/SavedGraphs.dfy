/** The graph that a save writes: what the link protocol leaves behind when no link is in flight. */
module SavedGraphs {
  import opened Options
  import opened LinkProtocol
  import opened LinkTheorems
  import opened LinkHistory
  import Codec = GraphCodec
  import Decoder = GraphDecode
  import Layout = GraphLayout
  import Container = IndexContainer
  import File = IndexFile
  import Format = FileFormat
  import Bytes = LittleEndian
  import Tombstones
  import Ids = IdMaps

  /** The ids a reader finds in a list. */
  function ListOf(s: State, k: Key): seq<Id>
    requires k in s.lists && s.lists[k].count <= |s.lists[k].slots|
  {
    s.lists[k].slots[..s.lists[k].count]
  }

  /** Every list of every node exists, and its slots are there. */
  predicate Listed(s: State) {
    forall x, l :: 0 <= x < |s.levels| && 0 <= l <= s.levels[x] ==> ListThere(s, Key(x, l))
  }

  predicate ListThere(s: State, k: Key) {
    k in s.lists && s.lists[k].count <= |s.lists[k].slots|
  }

  function NodeOf(s: State, x: Id): (node: Codec.Node)
    requires Listed(s) && x < |s.levels|
    ensures |node| == s.levels[x] + 1
  {
    seq(s.levels[x] + 1, l requires 0 <= l <= s.levels[x] => assert ListThere(s, Key(x, l)); ListOf(s, Key(x, l)))
  }

  function GraphOf(s: State): (g: Codec.Graph)
    requires Listed(s)
    ensures |g| == |s.levels|
  {
    seq(|s.levels|, x requires 0 <= x < |s.levels| => NodeOf(s, x))
  }

  /** The shape recorded with the graph. */
  function ShapeOf(cfg: Config, s: State): Codec.Shape {
    Codec.Shape(cfg.m, cfg.maxLevel, |s.levels|, if s.entry.Entry? then s.entry.id else Codec.EMPTY_SLOT,
                if s.entry.Entry? then s.entry.lvl else 0)
  }

  lemma ReachableIsListed(cfg: Config, s: State)
    requires Reachable(cfg, s)
    ensures Listed(s)
  {
    ReachableInv(cfg, s);
    forall x, l | 0 <= x < |s.levels| && 0 <= l <= s.levels[x]
      ensures ListThere(s, Key(x, l))
    {
      ListsSound(cfg, s, Key(x, l));
    }
  }

  lemma QuietList(cfg: Config, s: State, x: Id, l: nat)
    requires Reachable(cfg, s) && Quiet(s) && Listed(s) && x < |s.levels| && l <= s.levels[x]
    ensures ListThere(s, Key(x, l))
    ensures Codec.ListOk(s.levels, x, l, ListOf(s, Key(x, l)), Codec.ListCapacity(cfg.m, l))
  {
    hide Reachable;
    assert ListThere(s, Key(x, l));
    ListsSound(cfg, s, Key(x, l));
    var ids := ListOf(s, Key(x, l));
    forall j: nat | j < |ids|
      ensures Codec.LinkOk(s.levels, x, l, ids[j])
    {
      assert ids[j] == s.lists[Key(x, l)].slots[j];
    }
  }

  /** Whatever links ran and failed, a graph with no link in flight is one that `IndexFile.Saveable` admits. */
  lemma QuietGraphIsKept(cfg: Config, s: State)
    requires Reachable(cfg, s) && Quiet(s) && |s.levels| <= Codec.EMPTY_SLOT
    ensures Listed(s) && Codec.KeptGraph(GraphOf(s), s.levels, ShapeOf(cfg, s))
  {
    hide Codec.ListOk;
    ReachableIsListed(cfg, s);
    ReachableInv(cfg, s);
    forall x: nat | x < |s.levels|
      ensures Codec.NodeOk(s.levels, x, NodeOf(s, x), cfg.m)
    {
      forall l: nat | l <= s.levels[x]
        ensures Codec.ListOk(s.levels, x, l, NodeOf(s, x)[l], Codec.ListCapacity(cfg.m, l))
      {
        QuietList(cfg, s, x, l);
      }
    }
    LevelsAreCapped(cfg, s);
  }

  lemma LevelsAreCapped(cfg: Config, s: State)
    requires Reachable(cfg, s)
    ensures forall i :: 0 <= i < |s.levels| ==> s.levels[i] <= cfg.maxLevel
  {
    var run :| Reaches(cfg, run, s);
    LevelsCapped(cfg, run, s);
  }

  /** The graph reader's check of the entry point is the validator's: both refuse the same quiet graphs. */
  lemma ReaderAgreesWithValidator(cfg: Config, s: State)
    requires Reachable(cfg, s) && Quiet(s) && |s.levels| <= Codec.EMPTY_SLOT
    ensures |s.threads| == |s.levels|
    ensures Codec.EntryOk(s.levels, ShapeOf(cfg, s)) <==> ValidatorAccepts(cfg, s)
  {
    ReachableInv(cfg, s);
    LevelsAreCapped(cfg, s);
    forall k | k in s.lists ensures ListChecks(cfg, s, k) {
      ListsSound(cfg, s, k);
    }
  }

  // ---------------------------------------------------------------------------------------------
  // Saving
  // ---------------------------------------------------------------------------------------------

  /** A collection state with this graph. */
  ghost predicate Holds(saved: File.IndexState, cfg: Config, s: State)
    requires Listed(s)
  {
    && saved.config.m == cfg.m && saved.config.maxLevelCap == cfg.maxLevel && |saved.labels| == |s.levels|
    && saved.graph == Some(File.Stored(GraphOf(s), ShapeOf(cfg, s).entryPoint, ShapeOf(cfg, s).entryLevel))
  }

  lemma LevelsOfGraph(s: State)
    requires Listed(s)
    ensures Codec.HasLists(GraphOf(s)) && Codec.LevelsOf(GraphOf(s)) == s.levels
  {
    var levels := s.levels;
    forall x: nat | x < |levels| ensures |GraphOf(s)[x]| == levels[x] + 1 {}
    assert Codec.HasLists(GraphOf(s));
    assert Codec.LevelsOf(GraphOf(s)) == levels;
  }

  /** A saved graph reads back if and only if the validator accepts it: of the quiet graphs, saving loses exactly
      those with a row above the entry point. */
  lemma SavedGraphReadsBackIff(saved: File.IndexState, w: File.World, cfg: Config, s: State)
    requires Reachable(cfg, s) && Quiet(s) && Listed(s) && Holds(saved, cfg, s)
    requires w.nodesPerChunk > 0 && File.Saveable(saved, w)
    ensures |s.threads| == |s.levels|
    ensures File.HasTopEntry(saved) <==> ValidatorAccepts(cfg, s)
  {
    hide Reachable, Quiet, ValidatorAccepts, Codec.KeptGraph, Codec.EntryOk, Decoder.Storable, Ids.Restorable;
    File.Checksummed(saved, w);
    LevelsOfGraph(s);
    ReaderAgreesWithValidator(cfg, s);
  }

  // ---------------------------------------------------------------------------------------------
  // A saved collection that cannot be loaded
  // ---------------------------------------------------------------------------------------------

  /** The collection of `LinkHistory.FailedRowExample`: one linked row, and a tombstoned one above the entry point. */
  function FailedRowCollection(): File.IndexState {
    File.IndexState(File.Config(1, 0, File.HNSW, false, 2, 2, 1, 1, 0), [], 0, [1, 2],
                    [Tombstones.With(0, Tombstones.Mask(1))], [0, 0, 0, 0, 0, 0, 0, 0],
                    Some(File.Stored([[[]], [[], []]], 0, 0)))
  }

  lemma SecondRowMarked()
    ensures Tombstones.Marks(FailedRowCollection().deleted) == {1}
  {
    hide Tombstones.Mask, Tombstones.With, Tombstones.Marks;
    Tombstones.MarksAfter(Tombstones.ZeroWords(1), 1);
    File.NoMarks(1);
    var words := Tombstones.ZeroWords(1);
    assert words[1 / Tombstones.ROWS_PER_WORD := Tombstones.With(words[0], Tombstones.Mask(1))]
        == FailedRowCollection().deleted;
  }

  lemma FailedRowLevels()
    ensures var g := FailedRowCollection().graph.value.nodes; Codec.HasLists(g) && Codec.LevelsOf(g) == [0, 1]
  {
  }

  lemma FailedRowStorable(nodesPerChunk: nat)
    requires nodesPerChunk > 0
    ensures Decoder.Storable(Codec.Shape(2, 1, 2, 0, 0), nodesPerChunk, [0, 1])
  {
    var shape, levels := Codec.Shape(2, 1, 2, 0, 0), [0, 1];
    assert Decoder.Laid(shape, nodesPerChunk, levels, 0).Added?;
    assert Decoder.Laid(shape, nodesPerChunk, levels, 1).Added?;
    assert Decoder.Laid(shape, nodesPerChunk, levels, 2).Added?;
  }

  lemma FailedRowSections()
    ensures File.HasEncoding(FailedRowCollection())
    ensures var g := File.GraphOf(FailedRowCollection());
            |g.levels| == 2 && |g.base| == 40 && |g.index| == 16 && |g.upper| == 12
  {
    hide Bytes.Bytes, Codec.BaseWords, Codec.UpperWords, Codec.IndexWords;
    FailedRowLevels();
    var g := FailedRowCollection().graph.value.nodes;
    var levels := [0, 1];
    assert Codec.NodeOk(levels, 0, g[0], 2) && Codec.NodeOk(levels, 1, g[1], 2);
    Codec.BaseSize(g, 2, 2);
    Codec.UpperSize(g, levels, 2, 2);
    assert Codec.Offset(levels, 1, 2) == 0 && Codec.Offset(levels, 2, 2) == 3;
  }

  lemma FailedRowFileSize()
    requires Tombstones.Marks(FailedRowCollection().deleted) == {1}
    ensures var s := FailedRowCollection();
            File.Marked(s) <= |s.labels| && File.HasEncoding(s) && Container.FileSize(File.PlanOf(s)) < Format.SIZE_LIMIT
  {
    hide Tombstones.Marks, File.GraphOf, Container.FileSize, Format.EncodeMetadata, File.MetaOf, File.HasEncoding;
    hide Bytes.Bytes, File.WordBytes;
    var s := FailedRowCollection();
    FailedRowSections();
    File.ExampleMetadata(s);
    File.SmallPlan(File.PlanOf(s));
  }

  /** A link that failed leaves a collection that can be saved, and whose file the reader refuses. */
  lemma FailedRowIsSaveable(w: File.World)
    requires w.nodesPerChunk > 0 && w.componentsOk([0, 0, 0, 0, 0, 0, 0, 0]) && Container.Is32BitChecksum(w.crc)
    ensures File.Saveable(FailedRowCollection(), w)
    ensures File.HasLevel(FailedRowCollection()) && !File.HasTopEntry(FailedRowCollection())
  {
    hide Tombstones.Marks, Decoder.Laid, Container.FileSize, File.PlanOf;
    SecondRowMarked();
    FailedRowLevels();
    FailedRowStorable(w.nodesPerChunk);
    FailedRowFileSize();
    var levels := Codec.LevelsOf(FailedRowCollection().graph.value.nodes);
    assert levels[1] == 1 > File.ShapeOf(File.MetaOf(FailedRowCollection())).entryLevel;
  }

  /** That collection's graph is what the run with the failed link leaves behind. */
  lemma FailedRowFromRun() returns (cfg: Config, s: State)
    ensures Reachable(cfg, s) && Quiet(s) && Listed(s) && Holds(FailedRowCollection(), cfg, s)
  {
    hide Reaches;
    cfg := Config(2, 1, true);
    s := FailedRowExample(cfg);
    ReachableIsListed(cfg, s);
    assert NodeOf(s, 0) == [[]];
    assert NodeOf(s, 1) == [[], []];
    assert GraphOf(s) == [[[]], [[], []]];
  }
}
