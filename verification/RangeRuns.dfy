/** `run_ranges` as a whole: the chunks that the caller and its helpers take, and the indices those chunks cover. */
module RangeRuns {
  import opened RunRanges
  import Helpers = RangeHelpers

  /** Place `i` of the chunks begun is a chunk that runs the body on `index`. */
  predicate BegunOn(begin: nat, end: nat, grain: nat, s: Helpers.State, i: nat, index: nat) {
    i < |s.begun| && Covers(Calls(begin, end, grain, false), s.begun[i], index)
  }

  /** Of the chunks begun exactly one runs the body on `index`, and it has finished. */
  ghost predicate RunOnce(begin: nat, end: nat, grain: nat, s: Helpers.State, index: nat) {
    exists i: nat :: BegunOn(begin, end, grain, s, i, index) && s.begun[i] in s.finished
                     && forall j: nat | BegunOn(begin, end, grain, s, j, index) :: j == i
  }

  /** A state of a run that shares the range with helpers. */
  ghost predicate Shared(begin: nat, end: nat, grain: nat, helpers: nat, run: seq<Helpers.Action>, s: Helpers.State) {
    && begin < end < TWO_64 && grain < TWO_64 && !RunsWhole(begin, end, grain, false)
    && Helpers.Reaches(Helpers.Init(ChunkCount(begin, end, Grain(grain)), helpers), run, s)
  }

  /** At any moment, with any failures, the body has been started at most once on any index, and on none outside. */
  lemma StartedAtMostOnce(begin: nat, end: nat, grain: nat, helpers: nat, run: seq<Helpers.Action>, s: Helpers.State,
                          i: nat, j: nat, index: nat)
    requires Shared(begin, end, grain, helpers, run, s)
    requires BegunOn(begin, end, grain, s, i, index) && BegunOn(begin, end, grain, s, j, index)
    ensures i == j && begin <= index < end
  {
    hide Calls, Helpers.Reaches, RunsWhole;
    Helpers.BegunOnce(ChunkCount(begin, end, Grain(grain)), helpers, run, s);
    NeverTwice(begin, end, grain, false, s.begun[i], s.begun[j], index);
  }

  /** A caller that returns without an error has begun the chunks 0, 1, ... up to the last, and all have finished. */
  lemma AllChunksRun(begin: nat, end: nat, grain: nat, helpers: nat, run: seq<Helpers.Action>, s: Helpers.State)
    requires Shared(begin, end, grain, helpers, run, s) && Helpers.At(s, 0, Helpers.Gone) && !s.error
    ensures |s.begun| == |Calls(begin, end, grain, false)|
    ensures forall c: nat | c < |s.begun| :: s.begun[c] == c && c in s.finished
  {
    var start := Helpers.Init(ChunkCount(begin, end, Grain(grain)), helpers);
    Helpers.ReturnIsComplete(start.chunks, helpers, run, s);
    Helpers.InitInv(start.chunks, helpers);
    Helpers.RunKeepsInv(start, run, s);
    Helpers.ChunksStay(start, run, s);
  }

  /** When the caller returns without an error, an index was run exactly once if and only if some call covers it. */
  lemma ReturnedIndex(begin: nat, end: nat, grain: nat, helpers: nat, run: seq<Helpers.Action>, s: Helpers.State, index: nat)
    requires Shared(begin, end, grain, helpers, run, s) && Helpers.At(s, 0, Helpers.Gone) && !s.error
    ensures RunOnce(begin, end, grain, s, index) <==> CoveredOnce(Calls(begin, end, grain, false), index)
  {
    hide Calls, Helpers.Reaches, RunsWhole, Covers;
    AllChunksRun(begin, end, grain, helpers, run, s);
    forall i: nat
      ensures BegunOn(begin, end, grain, s, i, index) <==> Covers(Calls(begin, end, grain, false), i, index)
    {
      CoversInside(Calls(begin, end, grain, false), i, index);
    }
  }

  lemma CoversInside(calls: seq<Span>, i: nat, index: nat)
    ensures Covers(calls, i, index) ==> i < |calls|
  {
  }

  /**
    * Whatever the interleaving and the number of helpers: a `run_ranges` that returns without an error has run the
    * body exactly once on every index if and only if the end of the last chunk fits in 64 bits.
    */
  lemma ReturnedRunsEachOnceIff(begin: nat, end: nat, grain: nat, helpers: nat, run: seq<Helpers.Action>, s: Helpers.State)
    requires Shared(begin, end, grain, helpers, run, s) && Helpers.At(s, 0, Helpers.Gone) && !s.error
    ensures (forall index: nat | begin <= index < end :: RunOnce(begin, end, grain, s, index))
       <==> begin + ChunkCount(begin, end, Grain(grain)) * Grain(grain) < TWO_64
  {
    hide Calls, Helpers.Reaches, RunOnce, CoveredOnce;
    CoveredIff(begin, end, grain, false);
    forall index: nat
      ensures RunOnce(begin, end, grain, s, index) <==> CoveredOnce(Calls(begin, end, grain, false), index)
    {
      ReturnedIndex(begin, end, grain, helpers, run, s, index);
    }
  }
}
