/** Exact search: a blocked scan over the row chunks into a bounded heap. */
module FlatScan {
  import opened Candidates
  import opened Heaps

  const BLOCK_ROWS := 1024

  /** Rows are stored in chunks of equal capacity; only the last used chunk may be partly filled. */
  datatype Layout = Layout(rowsPerChunk: nat, chunkCount: nat, size: nat) {
    predicate Valid() {
      rowsPerChunk > 0 && size <= chunkCount * rowsPerChunk
    }

    function RowsInChunk(chunk: nat): (rows: nat)
      ensures rows <= rowsPerChunk && (rows > 0 ==> chunk * rowsPerChunk + rows <= size)
    {
      var start := chunk * rowsPerChunk;
      if start >= size then 0
      else if size - start < rowsPerChunk then size - start else rowsPerChunk
    }
  }

  ghost function LiveBelow(n: nat, deleted: set<nat>): set<nat> {
    Nodes(n) - deleted
  }

  /** The heap holds the best of the live rows before `n`. */
  ghost predicate Scanned(kept: multiset<Scored>, dist: seq<real>, n: nat, deleted: set<nat>, k: nat) {
    n <= |dist| && KeepsBest(kept, multiset(Score(dist, LiveBelow(n, deleted))), k)
  }

  lemma SkipDeleted(kept: multiset<Scored>, dist: seq<real>, n: nat, deleted: set<nat>, k: nat)
    requires Scanned(kept, dist, n, deleted, k) && n < |dist| && n in deleted
    ensures Scanned(kept, dist, n + 1, deleted, k)
  {
    assert LiveBelow(n + 1, deleted) == LiveBelow(n, deleted);
  }

  lemma KeptBelow(kept: multiset<Scored>, dist: seq<real>, n: nat, deleted: set<nat>, k: nat, c: Scored)
    requires Scanned(kept, dist, n, deleted, k) && c in kept
    ensures c.id < n
  {
    assert c in multiset(Score(dist, LiveBelow(n, deleted)));
  }

  /** Rows come in ascending id, so a row at the worst kept distance loses against every kept row:
      testing the distance alone is exact. */
  lemma SkipWorse(kept: multiset<Scored>, dist: seq<real>, n: nat, deleted: set<nat>, k: nat, worst: Scored)
    requires Scanned(kept, dist, n, deleted, k) && n < |dist| && n !in deleted
    requires |kept| == k && IsWorst(worst, kept) && !(dist[n] < worst.distance)
    ensures Scanned(kept, dist, n + 1, deleted, k)
  {
    forall x | x in kept ensures !Less(At(dist, n), x) {
      KeptBelow(kept, dist, n, deleted, k, x);
    }
    RefuseKeepsBest(kept, At(dist, n), k, multiset(Score(dist, LiveBelow(n, deleted))));
    assert LiveBelow(n + 1, deleted) == LiveBelow(n, deleted) + {n};
    ScoreAdd(dist, LiveBelow(n, deleted), n);
  }

  lemma PushRow(kept: multiset<Scored>, dist: seq<real>, n: nat, deleted: set<nat>, k: nat, kept': multiset<Scored>)
    requires Scanned(kept, dist, n, deleted, k) && n < |dist| && n !in deleted
    requires Pushed(kept, At(dist, n), k, kept')
    ensures Scanned(kept', dist, n + 1, deleted, k)
  {
    PushKeepsBest(kept, At(dist, n), k, kept', multiset(Score(dist, LiveBelow(n, deleted))));
    assert LiveBelow(n + 1, deleted) == LiveBelow(n, deleted) + {n};
    ScoreAdd(dist, LiveBelow(n, deleted), n);
  }

  /** One row of a block. */
  method ScanRow(heap: BoundedMaxHeap, dist: seq<real>, id: nat, d: real, deleted: set<nat>)
    requires heap.Valid() && heap.data.Length >= 1
    requires Scanned(heap.Kept(), dist, id, deleted, heap.data.Length) && id < |dist| && d == dist[id]
    modifies heap`size, heap.data
    ensures heap.Valid() && Scanned(heap.Kept(), dist, id + 1, deleted, heap.data.Length)
  {
    hide Scanned, KeepsBest;
    ghost var before := heap.Kept();
    if id in deleted {
      SkipDeleted(before, dist, id, deleted, heap.data.Length);
      return;
    }
    if heap.Full() {
      var worst := heap.Top();
      if !(d < worst.distance) {
        SkipWorse(before, dist, id, deleted, heap.data.Length, worst);
        return;
      }
    }
    var kept := heap.Push(Scored(d, id));
    PushRow(before, dist, id, deleted, heap.data.Length, heap.Kept());
  }

  /** The `n` rows from `first` on, via the distance buffer. */
  method ScanBlock(heap: BoundedMaxHeap, dist: seq<real>, first: nat, n: nat, distances: array<real>, deleted: set<nat>)
    requires heap.Valid() && heap.data.Length >= 1
    requires n <= distances.Length == BLOCK_ROWS && first + n <= |dist|
    requires Scanned(heap.Kept(), dist, first, deleted, heap.data.Length)
    modifies heap`size, heap.data, distances
    ensures heap.Valid() && Scanned(heap.Kept(), dist, first + n, deleted, heap.data.Length)
  {
    hide Scanned, KeepsBest, MaxHeapTo;
    for r := 0 to n
      invariant heap.Valid() && heap.Kept() == old(heap.Kept())
      invariant forall j :: 0 <= j < r ==> distances[j] == dist[first + j]
    {
      distances[r] := dist[first + r];
    }
    for r := 0 to n
      invariant heap.Valid() && Scanned(heap.Kept(), dist, first + r, deleted, heap.data.Length)
      invariant forall j :: 0 <= j < n ==> distances[j] == dist[first + j]
    {
      ScanRow(heap, dist, first + r, distances[r], deleted);
    }
  }

  /** The `rows` rows from `first` on, block by block. */
  method ScanChunk(heap: BoundedMaxHeap, dist: seq<real>, first: nat, rows: nat, distances: array<real>, deleted: set<nat>)
    requires heap.Valid() && heap.data.Length >= 1
    requires distances.Length == BLOCK_ROWS && first + rows <= |dist|
    requires Scanned(heap.Kept(), dist, first, deleted, heap.data.Length)
    modifies heap`size, heap.data, distances
    ensures heap.Valid() && Scanned(heap.Kept(), dist, first + rows, deleted, heap.data.Length)
  {
    hide Scanned, KeepsBest, MaxHeapTo;
    var start: nat := 0;
    while start < rows
      invariant heap.Valid()
      invariant Scanned(heap.Kept(), dist, first + (if start < rows then start else rows), deleted, heap.data.Length)
    {
      var n := if BLOCK_ROWS < rows - start then BLOCK_ROWS else rows - start;
      ScanBlock(heap, dist, first + start, n, distances, deleted);
      start := start + BLOCK_ROWS;
    }
  }

  /** The `min(k, live)` nearest live rows, ascending, for every chunk layout and tombstone set. */
  method Search(layout: Layout, dist: seq<real>, deleted: set<nat>, k: nat) returns (out: seq<Scored>)
    requires layout.Valid() && layout.size == |dist| && k >= 1
    ensures Ascending(out)
    ensures KeepsBest(multiset(out), multiset(Score(dist, LiveBelow(|dist|, deleted))), k)
  {
    hide Scanned, KeepsBest, MaxHeapTo;
    var storage := new Scored[k](_ => Scored(0.0, 0));
    var heap := new BoundedMaxHeap(storage);
    var distances := new real[BLOCK_ROWS](_ => 0.0);
    EmptyScan(dist, deleted, k);
    var baseId: nat := 0;
    for chunk := 0 to layout.chunkCount
      invariant heap.Valid() && Scanned(heap.Kept(), dist, baseId, deleted, k)
      invariant baseId <= |dist|
      invariant baseId == (if chunk * layout.rowsPerChunk < |dist| then chunk * layout.rowsPerChunk else |dist|)
    {
      var rows := layout.RowsInChunk(chunk);
      NextChunk(layout, chunk);
      ScanChunk(heap, dist, baseId, rows, distances, deleted);
      baseId := baseId + rows;
    }
    ScanComplete(heap.Kept(), dist, deleted, k);
    var found := heap.SortAscending();
    out := storage[..found];
  }

  lemma EmptyScan(dist: seq<real>, deleted: set<nat>, k: nat)
    ensures Scanned(multiset{}, dist, 0, deleted, k)
  {
    assert Score(dist, LiveBelow(0, deleted)) == {};
  }

  lemma ScanComplete(kept: multiset<Scored>, dist: seq<real>, deleted: set<nat>, k: nat)
    requires Scanned(kept, dist, |dist|, deleted, k)
    ensures KeepsBest(kept, multiset(Score(dist, LiveBelow(|dist|, deleted))), k)
  {}

  lemma NextChunk(layout: Layout, chunk: nat)
    requires layout.Valid() && chunk < layout.chunkCount
    ensures (chunk + 1) * layout.rowsPerChunk == chunk * layout.rowsPerChunk + layout.rowsPerChunk
  {}
}
