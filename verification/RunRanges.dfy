/**
  * Sharing a range of indices between the calling thread and helpers on a pool: which calls of the body are made,
  * and which indices they cover.
  */
module RunRanges {
  import opened Arithmetic

  const TWO_64: nat := 0x1_0000_0000_0000_0000

  // ----- chunks of indices -----

  /** Number of chunks of `grain` indices, the last one possibly shorter. */
  function ChunkCount(begin: nat, end: nat, grain: nat): nat
    requires begin < end && grain > 0
  {
    (end - begin) / grain + if (end - begin) % grain != 0 then 1 else 0
  }

  /** The bounds a chunk is run with, computed in 64 bits. */
  function Low(begin: nat, grain: nat, chunk: nat): nat {
    (begin + chunk * grain) % TWO_64
  }

  function High(begin: nat, end: nat, grain: nat, chunk: nat): nat {
    var stop := (Low(begin, grain, chunk) + grain) % TWO_64;
    if stop < end then stop else end
  }

  /** Chunk `chunk` runs the body on `index`. */
  predicate RunsOn(begin: nat, end: nat, grain: nat, chunk: nat, index: nat)
    requires begin < end && grain > 0
  {
    chunk < ChunkCount(begin, end, grain) && Low(begin, grain, chunk) <= index < High(begin, end, grain, chunk)
  }

  ghost predicate InOneChunk(begin: nat, end: nat, grain: nat, index: nat)
    requires begin < end && grain > 0
  {
    exists chunk: nat :: RunsOn(begin, end, grain, chunk, index)
                         && forall other: nat | RunsOn(begin, end, grain, other, index) :: other == chunk
  }

  /** Every index is in one chunk and in no other. */
  ghost predicate Partitioned(begin: nat, end: nat, grain: nat)
    requires begin < end && grain > 0
  {
    forall index: nat | begin <= index < end :: InOneChunk(begin, end, grain, index)
  }

  lemma CountBounds(begin: nat, end: nat, grain: nat)
    requires begin < end && grain > 0
    ensures var n := ChunkCount(begin, end, grain);
            n > 0 && begin + n * grain >= end && begin + (n - 1) * grain < end && n * grain == (n - 1) * grain + grain
  {
    var count := end - begin;
    var q, r := count / grain, count % grain;
    assert count == q * grain + r;
    if r == 0 {
      assert q > 0;
      assert q * grain == (q - 1) * grain + grain;
    } else {
      assert (q + 1) * grain == q * grain + grain;
    }
  }

  /** Without wrap-around a chunk is exactly its part of the range. */
  lemma ChunkBounds(begin: nat, end: nat, grain: nat, chunk: nat)
    requires begin < end < TWO_64 && grain > 0 && chunk < ChunkCount(begin, end, grain)
    requires begin + ChunkCount(begin, end, grain) * grain < TWO_64
    ensures Low(begin, grain, chunk) == begin + chunk * grain < end
    ensures High(begin, end, grain, chunk)
         == if begin + (chunk + 1) * grain < end then begin + (chunk + 1) * grain else end
  {
    var n := ChunkCount(begin, end, grain);
    CountBounds(begin, end, grain);
    Grows(chunk, n - 1, grain);
    Grows(chunk + 1, n, grain);
    assert (chunk + 1) * grain == chunk * grain + grain;
  }

  lemma ChunkOfIndex(begin: nat, index: nat, grain: nat, chunk: nat)
    requires begin <= index && grain > 0
    ensures begin + chunk * grain <= index < begin + (chunk + 1) * grain <==> chunk == (index - begin) / grain
  {
    var d, q := index - begin, (index - begin) / grain;
    assert d == q * grain + d % grain;
    assert (q + 1) * grain == q * grain + grain;
    if chunk < q {
      Grows(chunk + 1, q, grain);
    } else if chunk > q {
      Grows(q + 1, chunk, grain);
    }
  }

  lemma NoWrapPartitions(begin: nat, end: nat, grain: nat)
    requires begin < end < TWO_64 && grain > 0 && begin + ChunkCount(begin, end, grain) * grain < TWO_64
    ensures Partitioned(begin, end, grain)
  {
    hide RunsOn;
    forall index: nat | begin <= index < end
      ensures InOneChunk(begin, end, grain, index)
    {
      var q: nat := (index - begin) / grain;
      forall chunk: nat
        ensures RunsOn(begin, end, grain, chunk, index) <==> chunk == q
      {
        RunsOnIff(begin, end, grain, chunk, index);
      }
      assert RunsOn(begin, end, grain, q, index);
    }
  }

  lemma RunsOnIff(begin: nat, end: nat, grain: nat, chunk: nat, index: nat)
    requires begin <= index < end < TWO_64 && grain > 0
    requires begin + ChunkCount(begin, end, grain) * grain < TWO_64
    ensures RunsOn(begin, end, grain, chunk, index) <==> chunk == (index - begin) / grain
  {
    hide Low, High;
    var n, q := ChunkCount(begin, end, grain), (index - begin) / grain;
    ChunkOfIndex(begin, index, grain, chunk);
    if chunk < n {
      ChunkBounds(begin, end, grain, chunk);
    } else {
      ChunkOfIndex(begin, index, grain, q);
      CountBounds(begin, end, grain);
      Grows(n, chunk, grain);
    }
  }

  /** A chunk that ends before an index, or starts there and wraps, does not run on it. */
  lemma NotRunOn(begin: nat, end: nat, grain: nat, chunk: nat, index: nat)
    requires begin <= index < end < TWO_64 && 0 < grain < TWO_64
    requires begin + chunk * grain + grain <= index || (begin + chunk * grain == index && index + grain >= TWO_64)
    ensures !RunsOn(begin, end, grain, chunk, index)
  {
    hide ChunkCount;
    EndsBefore(begin + chunk * grain, end, grain, index);
  }

  lemma EndsBefore(lo: nat, end: nat, grain: nat, index: nat)
    requires index < end < TWO_64 && 0 < grain < TWO_64
    requires lo + grain <= index || (lo == index && index + grain >= TWO_64)
    ensures var stop := (lo % TWO_64 + grain) % TWO_64; !(index < if stop < end then stop else end)
  {
  }

  /** When the end of the last chunk wraps, its first index is in no chunk. */
  lemma WrapLosesIndex(begin: nat, end: nat, grain: nat, chunk: nat)
    requires begin < end < TWO_64 && 0 < grain < TWO_64 && begin + ChunkCount(begin, end, grain) * grain >= TWO_64
    ensures ChunkCount(begin, end, grain) > 0
    ensures begin <= begin + (ChunkCount(begin, end, grain) - 1) * grain < end
    ensures !RunsOn(begin, end, grain, chunk, begin + (ChunkCount(begin, end, grain) - 1) * grain)
  {
    hide Low, High;
    CountBounds(begin, end, grain);
    var n := ChunkCount(begin, end, grain);
    var index: nat := begin + (n - 1) * grain;
    if chunk < n {
      if chunk < n - 1 {
        ChunkEndsBefore(chunk, n - 1, grain);
      }
      NotRunOn(begin, end, grain, chunk, index);
    }
  }

  lemma ChunkEndsBefore(chunk: nat, later: nat, grain: nat)
    requires chunk < later
    ensures chunk * grain + grain <= later * grain
  {
    Grows(chunk + 1, later, grain);
  }

  /** Every index is in exactly one chunk if and only if the end of the last chunk fits in 64 bits. */
  lemma PartitionedIff(begin: nat, end: nat, grain: nat)
    requires begin < end < TWO_64 && 0 < grain < TWO_64
    ensures Partitioned(begin, end, grain) <==> begin + ChunkCount(begin, end, grain) * grain < TWO_64
  {
    hide RunsOn, ChunkCount;
    if begin + ChunkCount(begin, end, grain) * grain < TWO_64 {
      NoWrapPartitions(begin, end, grain);
    } else {
      WrapLosesIndex(begin, end, grain, 0);
      var index: nat := begin + (ChunkCount(begin, end, grain) - 1) * grain;
      forall chunk: nat
        ensures !RunsOn(begin, end, grain, chunk, index)
      {
        WrapLosesIndex(begin, end, grain, chunk);
      }
      assert !InOneChunk(begin, end, grain, index);
    }
  }

  /** No index is in two chunks, whether or not the last one wraps. */
  lemma NeverInTwo(begin: nat, end: nat, grain: nat, a: nat, b: nat, index: nat)
    requires begin < end < TWO_64 && 0 < grain < TWO_64
    requires RunsOn(begin, end, grain, a, index) && RunsOn(begin, end, grain, b, index)
    ensures a == b
  {
    StaysInChunk(begin, end, grain, a, index);
    StaysInChunk(begin, end, grain, b, index);
    ChunkOfIndex(begin, index, grain, a);
    ChunkOfIndex(begin, index, grain, b);
  }

  /** A chunk runs on no index outside its part of the range. */
  lemma StaysInChunk(begin: nat, end: nat, grain: nat, chunk: nat, index: nat)
    requires begin < end < TWO_64 && 0 < grain < TWO_64 && RunsOn(begin, end, grain, chunk, index)
    ensures begin <= index < end && begin + chunk * grain <= index < begin + (chunk + 1) * grain
  {
    hide ChunkCount;
    CountBounds(begin, end, grain);
    Grows(chunk, ChunkCount(begin, end, grain) - 1, grain);
    LowEnds(begin, grain, chunk);
    assert (chunk + 1) * grain == chunk * grain + grain;
  }

  lemma LowEnds(begin: nat, grain: nat, chunk: nat)
    requires begin + chunk * grain < TWO_64
    ensures Low(begin, grain, chunk) == begin + chunk * grain
    ensures (Low(begin, grain, chunk) + grain) % TWO_64 <= begin + chunk * grain + grain
  {
  }

  // ----- the calls of the body -----

  datatype Span = Span(lo: nat, hi: nat)

  /** A grain of zero counts as one. */
  function Grain(grain: nat): nat {
    if grain == 0 then 1 else grain
  }

  /** The caller runs a range of one chunk, and any range on a worker thread, in a single call. */
  predicate RunsWhole(begin: nat, end: nat, grain: nat, onWorker: bool)
    requires begin < end
  {
    ChunkCount(begin, end, Grain(grain)) == 1 || onWorker
  }

  /** The calls of the body that a run without an error makes, by chunk. */
  function Calls(begin: nat, end: nat, grain: nat, onWorker: bool): seq<Span> {
    if begin >= end then []
    else if RunsWhole(begin, end, grain, onWorker) then [Span(begin, end)]
    else seq(ChunkCount(begin, end, Grain(grain)),
             chunk requires chunk >= 0 => Span(Low(begin, Grain(grain), chunk), High(begin, end, Grain(grain), chunk)))
  }

  predicate Covers(calls: seq<Span>, i: nat, index: nat) {
    i < |calls| && calls[i].lo <= index < calls[i].hi
  }

  ghost predicate CoveredOnce(calls: seq<Span>, index: nat) {
    exists i: nat :: Covers(calls, i, index) && forall j: nat | Covers(calls, j, index) :: j == i
  }

  /** The body is run on every index of the range, once. */
  ghost predicate AllCoveredOnce(begin: nat, end: nat, grain: nat, onWorker: bool) {
    forall index: nat | begin <= index < end :: CoveredOnce(Calls(begin, end, grain, onWorker), index)
  }

  lemma CallsAreChunks(begin: nat, end: nat, grain: nat, i: nat, index: nat)
    requires begin < end && !RunsWhole(begin, end, grain, false)
    ensures Covers(Calls(begin, end, grain, false), i, index) <==> RunsOn(begin, end, Grain(grain), i, index)
  {
  }

  /** Whatever is passed, the body runs on no index outside the range and on none twice. */
  lemma NeverTwice(begin: nat, end: nat, grain: nat, onWorker: bool, i: nat, j: nat, index: nat)
    requires begin < TWO_64 && end < TWO_64 && grain < TWO_64
    requires Covers(Calls(begin, end, grain, onWorker), i, index) && Covers(Calls(begin, end, grain, onWorker), j, index)
    ensures i == j && begin <= index < end
  {
    if !RunsWhole(begin, end, grain, onWorker) {
      CallsAreChunks(begin, end, grain, i, index);
      CallsAreChunks(begin, end, grain, j, index);
      StaysInChunk(begin, end, Grain(grain), i, index);
      NeverInTwo(begin, end, Grain(grain), i, j, index);
    }
  }

  /**
    * `run_ranges` runs the body on every index of the range exactly once if and only if the range is run whole or
    * the end of the last chunk fits in 64 bits.
    */
  lemma CoveredIff(begin: nat, end: nat, grain: nat, onWorker: bool)
    requires begin < TWO_64 && end < TWO_64 && grain < TWO_64
    ensures AllCoveredOnce(begin, end, grain, onWorker)
       <==> begin >= end || RunsWhole(begin, end, grain, onWorker)
            || begin + ChunkCount(begin, end, Grain(grain)) * Grain(grain) < TWO_64
  {
    var calls := Calls(begin, end, grain, onWorker);
    if begin < end {
      if RunsWhole(begin, end, grain, onWorker) {
        forall index: nat | begin <= index < end
          ensures CoveredOnce(calls, index)
        {
          assert Covers(calls, 0, index);
        }
      } else {
        PartitionedIff(begin, end, Grain(grain));
        forall index: nat
          ensures CoveredOnce(calls, index) <==> InOneChunk(begin, end, Grain(grain), index)
        {
          OnceIsOneChunk(begin, end, grain, index);
        }
      }
    }
  }

  lemma OnceIsOneChunk(begin: nat, end: nat, grain: nat, index: nat)
    requires begin < end && !RunsWhole(begin, end, grain, false)
    ensures CoveredOnce(Calls(begin, end, grain, false), index) <==> InOneChunk(begin, end, Grain(grain), index)
  {
    hide Calls, RunsOn, Covers, RunsWhole;
    forall i: nat
      ensures Covers(Calls(begin, end, grain, false), i, index) <==> RunsOn(begin, end, Grain(grain), i, index)
    {
      CallsAreChunks(begin, end, grain, i, index);
    }
  }

  /** A range that loses half of its indices. */
  lemma WrapExample()
    ensures ChunkCount(0, TWO_64 - 1, TWO_64 / 2) == 2
    ensures !RunsWhole(0, TWO_64 - 1, TWO_64 / 2, false)
    ensures !AllCoveredOnce(0, TWO_64 - 1, TWO_64 / 2, false)
  {
    CoveredIff(0, TWO_64 - 1, TWO_64 / 2, false);
  }
}
