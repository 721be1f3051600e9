/** The two array heaps of the search: a bounded max-heap over caller storage, which selects the
    best candidates and sorts them in place, and a min-heap used as candidate queue. */
module Heaps {
  import opened Candidates

  // ---------------------------------------------------------------------------------------------
  // Heap order on sequences
  // ---------------------------------------------------------------------------------------------

  predicate IsChild(p: int, c: int) {
    c == 2 * p + 1 || c == 2 * p + 2
  }

  function Parent(i: nat): (p: nat)
    requires i > 0
    ensures p < i && IsChild(p, i)
  {
    (i - 1) / 2
  }

  lemma OneParent(p: nat, q: nat, c: nat)
    requires IsChild(p, c) && IsChild(q, c)
    ensures p == q
  {}

  /** Nobody among the first `n` exceeds its parent. */
  ghost predicate MaxHeapTo(s: seq<Scored>, n: nat)
    requires n <= |s|
  {
    forall p, c :: 0 <= p < c < n && IsChild(p, c) ==> !Less(s[p], s[c])
  }

  /** As above, but `hole` may exceed its parent; its children do not exceed that parent. */
  ghost predicate MaxHeapBut(s: seq<Scored>, n: nat, hole: nat)
    requires n <= |s|
  {
    && (forall p, c :: 0 <= p < c < n && IsChild(p, c) && c != hole ==> !Less(s[p], s[c]))
    && (forall p, c :: 0 <= p < hole < c < n && IsChild(p, hole) && IsChild(hole, c) ==> !Less(s[p], s[c]))
  }

  /** As above, but the children of `hole` may exceed it, though not the parent of `hole`. */
  ghost predicate MaxHeapAbove(s: seq<Scored>, n: nat, hole: nat)
    requires n <= |s|
  {
    && (forall p, c :: 0 <= p < c < n && IsChild(p, c) && p != hole ==> !Less(s[p], s[c]))
    && (forall p, c :: 0 <= p < hole < c < n && IsChild(p, hole) && IsChild(hole, c) ==> !Less(s[p], s[c]))
  }

  ghost predicate MaxHeap(s: seq<Scored>) {
    MaxHeapTo(s, |s|)
  }

  ghost predicate MinHeapOrder(s: seq<Scored>) {
    forall p, c :: 0 <= p < c < |s| && IsChild(p, c) ==> !Less(s[c], s[p])
  }

  ghost predicate MinHeapBut(s: seq<Scored>, hole: nat) {
    && (forall p, c :: 0 <= p < c < |s| && IsChild(p, c) && c != hole ==> !Less(s[c], s[p]))
    && (forall p, c :: 0 <= p < hole < c < |s| && IsChild(p, hole) && IsChild(hole, c) ==> !Less(s[c], s[p]))
  }

  ghost predicate MinHeapAbove(s: seq<Scored>, hole: nat) {
    && (forall p, c :: 0 <= p < c < |s| && IsChild(p, c) && p != hole ==> !Less(s[c], s[p]))
    && (forall p, c :: 0 <= p < hole < c < |s| && IsChild(p, hole) && IsChild(hole, c) ==> !Less(s[c], s[p]))
  }

  lemma {:induction false} RootIsWorst(s: seq<Scored>, i: nat)
    requires MaxHeap(s) && i < |s|
    ensures !Less(s[0], s[i])
  {
    if i > 0 { RootIsWorst(s, Parent(i)); }
  }

  lemma {:induction false} RootIsBest(s: seq<Scored>, i: nat)
    requires MinHeapOrder(s) && i < |s|
    ensures !Less(s[i], s[0])
  {
    if i > 0 { RootIsBest(s, Parent(i)); }
  }

  lemma RootIsWorstOfAll(s: seq<Scored>)
    requires MaxHeap(s) && s != []
    ensures IsWorst(s[0], multiset(s))
  {
    forall y | y in multiset(s) ensures !Less(s[0], y) {
      var i :| 0 <= i < |s| && s[i] == y;
      RootIsWorst(s, i);
    }
  }

  lemma SwapKeepsAll(s: seq<Scored>, i: nat, j: nat)
    requires i < |s| && j < |s|
    ensures multiset(Swapped(s, i, j)) == multiset(s)
  {}

  lemma SwapKeepsPrefix(s: seq<Scored>, i: nat, j: nat, n: nat)
    requires i < n <= |s| && j < n
    ensures multiset(Swapped(s, i, j)[..n]) == multiset(s[..n])
    ensures Swapped(s, i, j)[n..] == s[n..]
  {
    assert Swapped(s, i, j)[..n] == Swapped(s[..n], i, j);
    SwapKeepsAll(s[..n], i, j);
  }

  function Swapped(s: seq<Scored>, i: nat, j: nat): seq<Scored>
    requires i < |s| && j < |s|
  {
    s[i := s[j]][j := s[i]]
  }

  /** One iteration of `sift_up`. */
  lemma MaxRises(s: seq<Scored>, n: nat, hole: nat, p: nat)
    requires p < hole < n <= |s| && IsChild(p, hole) && MaxHeapBut(s, n, hole)
    ensures if Less(s[p], s[hole]) then MaxHeapBut(Swapped(s, p, hole), n, p) else MaxHeapTo(s, n)
  {
    var s' := Swapped(s, p, hole);
    forall q, c | 0 <= q < c < n && IsChild(q, c) && c != p && Less(s[p], s[hole]) ensures !Less(s'[q], s'[c]) {
      if q == p && c != hole { assert !Less(s[p], s[c]); }
      if q == hole { assert !Less(s[p], s[c]); }
    }
    forall g, c | 0 <= g < p < c < n && IsChild(g, p) && IsChild(p, c) && Less(s[p], s[hole])
      ensures !Less(s'[g], s'[c])
    {
      assert !Less(s[g], s[p]);
    }
    forall q, c | 0 <= q < c < n && IsChild(q, c) && !Less(s[p], s[hole]) ensures !Less(s[q], s[c]) {
      if c == hole { OneParent(p, q, c); }
    }
  }

  /** The child that `sift_down` compares with. */
  predicate WorstChild(s: seq<Scored>, n: nat, hole: nat, child: nat)
    requires n <= |s| && 2 * hole + 1 < n
  {
    child == if 2 * hole + 2 < n && Less(s[2 * hole + 1], s[2 * hole + 2]) then 2 * hole + 2 else 2 * hole + 1
  }

  /** One iteration of `sift_down`. */
  lemma MaxSinks(s: seq<Scored>, n: nat, hole: nat, child: nat)
    requires n <= |s| && 2 * hole + 1 < n && WorstChild(s, n, hole, child) && MaxHeapAbove(s, n, hole)
    ensures hole < child < n
    ensures if Less(s[hole], s[child]) then MaxHeapAbove(Swapped(s, hole, child), n, child) else MaxHeapTo(s, n)
  {
    var s' := Swapped(s, hole, child);
    assert IsChild(hole, child);
    forall p, c | 0 <= p < c < n && IsChild(p, c) && p != child && Less(s[hole], s[child])
      ensures !Less(s'[p], s'[c])
    {
      if c == hole { assert !Less(s[p], s[child]); }
      if c == child { OneParent(p, hole, c); }
    }
    forall p, c | 0 <= p < child < c < n && IsChild(p, child) && IsChild(child, c) && Less(s[hole], s[child])
      ensures !Less(s'[p], s'[c])
    {
      OneParent(p, hole, child);
    }
    forall p, c | 0 <= p < c < n && IsChild(p, c) && !Less(s[hole], s[child]) ensures !Less(s[p], s[c]) {}
  }

  lemma MaxSettled(s: seq<Scored>, n: nat, hole: nat)
    requires n <= |s| && 2 * hole + 1 >= n && MaxHeapAbove(s, n, hole)
    ensures MaxHeapTo(s, n)
  {}

  lemma MinRises(s: seq<Scored>, hole: nat, p: nat)
    requires p < hole < |s| && IsChild(p, hole) && MinHeapBut(s, hole)
    ensures if Less(s[hole], s[p]) then MinHeapBut(Swapped(s, p, hole), p) else MinHeapOrder(s)
  {
    var s' := Swapped(s, p, hole);
    forall q, c | 0 <= q < c < |s| && IsChild(q, c) && c != p && Less(s[hole], s[p]) ensures !Less(s'[c], s'[q]) {
      if q == p && c != hole { assert !Less(s[c], s[p]); }
      if q == hole { assert !Less(s[c], s[p]); }
    }
    forall g, c | 0 <= g < p < c < |s| && IsChild(g, p) && IsChild(p, c) && Less(s[hole], s[p])
      ensures !Less(s'[c], s'[g])
    {
      assert !Less(s[p], s[g]);
    }
    forall q, c | 0 <= q < c < |s| && IsChild(q, c) && !Less(s[hole], s[p]) ensures !Less(s[c], s[q]) {
      if c == hole { OneParent(p, q, c); }
    }
  }

  predicate BestChild(s: seq<Scored>, hole: nat, child: nat)
    requires 2 * hole + 1 < |s|
  {
    child == if 2 * hole + 2 < |s| && Less(s[2 * hole + 2], s[2 * hole + 1]) then 2 * hole + 2 else 2 * hole + 1
  }

  lemma MinSinks(s: seq<Scored>, hole: nat, child: nat)
    requires 2 * hole + 1 < |s| && BestChild(s, hole, child) && MinHeapAbove(s, hole)
    ensures hole < child < |s|
    ensures if Less(s[child], s[hole]) then MinHeapAbove(Swapped(s, hole, child), child) else MinHeapOrder(s)
  {
    var s' := Swapped(s, hole, child);
    assert IsChild(hole, child);
    forall p, c | 0 <= p < c < |s| && IsChild(p, c) && p != child && Less(s[child], s[hole])
      ensures !Less(s'[c], s'[p])
    {
      if c == hole { assert !Less(s[child], s[p]); }
      if c == child { OneParent(p, hole, c); }
    }
    forall p, c | 0 <= p < child < c < |s| && IsChild(p, child) && IsChild(child, c) && Less(s[child], s[hole])
      ensures !Less(s'[c], s'[p])
    {
      OneParent(p, hole, child);
    }
    forall p, c | 0 <= p < c < |s| && IsChild(p, c) && !Less(s[child], s[hole]) ensures !Less(s[c], s[p]) {}
  }

  lemma MinSettled(s: seq<Scored>, hole: nat)
    requires 2 * hole + 1 >= |s| && MinHeapAbove(s, hole)
    ensures MinHeapOrder(s)
  {}

  lemma HeapOfPrefix(s: seq<Scored>, n: nat)
    requires n <= |s|
    ensures MaxHeap(s[..n]) <==> MaxHeapTo(s, n)
  {
    if MaxHeap(s[..n]) {
      forall p, c | 0 <= p < c < n && IsChild(p, c) ensures !Less(s[p], s[c]) {
        assert !Less(s[..n][p], s[..n][c]);
      }
    }
  }

  // ---------------------------------------------------------------------------------------------
  // BoundedMaxHeap
  // ---------------------------------------------------------------------------------------------

  lemma MaxReplaceFirst(s: seq<Scored>, c: Scored)
    requires s != [] && MaxHeap(s)
    ensures multiset(s[0 := c]) == multiset(s) - multiset{s[0]} + multiset{c}
    ensures MaxHeapAbove(s[0 := c], |s|, 0)
  {}

  lemma NoHeap(s: seq<Scored>)
    ensures MaxHeapTo(s, 0)
  {
  }

  lemma RootReplaced(s: seq<Scored>, n: nat, c: Scored)
    requires n < |s| && MaxHeapTo(s, n + 1)
    ensures MaxHeapAbove(s[0 := c], n, 0)
  {
  }

  lemma RootRisen(s: seq<Scored>, n: nat)
    requires 0 < n <= |s| && MaxHeapBut(s, n, 0)
    ensures MaxHeapTo(s, n)
  {
  }

  /** Overwriting the first element by the last one and dropping the last removes the first. */
  lemma LastToFront(s: seq<Scored>)
    requires s != []
    ensures multiset(s[0 := s[|s| - 1]][..|s| - 1]) == multiset(s) - multiset{s[0]}
  {
    var n := |s| - 1;
    if n == 0 {
      assert s == [s[0]];
    } else {
      var middle := s[1..n];
      assert multiset(s) == multiset([s[0]]) + multiset(middle) + multiset([s[n]]) by {
        assert s == [s[0]] + middle + [s[n]];
      }
      assert s[0 := s[n]][..n] == [s[n]] + middle;
    }
  }

  class BoundedMaxHeap {
    const data: array<Scored>
    var size: nat

    ghost predicate Valid()
      reads this, data
    {
      size <= data.Length && MaxHeapTo(data[..], size)
    }

    /** The candidates kept so far. */
    ghost function Kept(): multiset<Scored>
      reads this, data
      requires size <= data.Length
    {
      multiset(data[..size])
    }

    constructor (storage: array<Scored>)
      ensures data == storage && size == 0 && Valid() && Kept() == multiset{}
    {
      data, size := storage, 0;
    }

    predicate Full()
      reads this
    {
      size == data.Length
    }

    /** Worst kept candidate. */
    method Top() returns (c: Scored)
      requires Valid() && size > 0
      ensures IsWorst(c, Kept())
      ensures c == data[0]
    {
      HeapOfPrefix(data[..], size);
      RootIsWorstOfAll(data[..size]);
      c := data[0];
    }

    method Push(c: Scored) returns (kept: bool)
      requires Valid()
      modifies `size, data
      ensures Valid() && Pushed(old(Kept()), c, data.Length, Kept())
      ensures size == if old(size) < data.Length then old(size) + 1 else old(size)
      ensures kept <==> old(size) < data.Length || exists x :: x in old(Kept()) && Less(c, x)
      ensures !kept ==> Kept() == old(Kept())
    {
      hide MaxHeapTo, MaxHeapAbove;
      if size < data.Length {
        Append(c);
        return true;
      }
      ghost var before := data[..];
      assert data[..size] == before;
      if size == 0 {
        return false;
      }
      RootIsWorstOfAll(before);
      if !Less(c, data[0]) {
        return false;
      }
      MaxReplaceFirst(before, c);
      data[0] := c;
      assert data[..] == before[0 := c] && data[..size] == data[..];
      SiftDown(0, size);
      assert Kept() == multiset(before) - multiset{before[0]} + multiset{c};
      return true;
    }

    /** Adds a candidate behind the others and lets it rise. */
    method Append(c: Scored)
      requires Valid() && size < data.Length
      modifies `size, data
      ensures Valid() && Kept() == old(Kept()) + multiset{c} && size == old(size) + 1
    {
      ghost var before := data[..size];
      data[size] := c;
      assert data[..size + 1] == before + [c];
      SiftUp(size);
      assert data[..size + 1] == data[..][..size + 1];
      size := size + 1;
    }

    /** Removes a worst candidate. */
    method Pop()
      requires Valid() && size > 0
      modifies `size, data
      ensures Valid() && size == old(size) - 1
      ensures IsWorst(old(data[0]), old(Kept())) && Kept() == old(Kept()) - multiset{old(data[0])}
    {
      hide MaxHeapTo, MaxHeapAbove, IsWorst;
      ghost var all, before := data[..], data[..size];
      HeapOfPrefix(all, size);
      RootIsWorstOfAll(before);
      LastToFront(before);
      size := size - 1;
      if size > 0 {
        RootReplaced(all, size, data[size]);
        data[0] := data[size];
        assert data[..] == all[0 := all[size]];
        assert data[..size] == before[0 := before[size]][..size];
        SiftDown(0, size);
      } else {
        NoHeap(data[..]);
      }
    }

    /** Heapsort in place. The heap is left empty; the storage holds its content in order. */
    method SortAscending() returns (count: nat)
      requires Valid()
      modifies `size, data
      ensures count == old(size) && size == 0 && Valid()
      ensures Ascending(data[..count]) && multiset(data[..count]) == old(Kept())
    {
      hide MaxHeapTo, MaxHeapAbove, SortedFrom, Ascending;
      count := size;
      var end: nat := count;
      SortStarts(data[..], count);
      while end > 1
        invariant end <= count <= data.Length && size == count
        invariant MaxHeapTo(data[..], end) && SortedFrom(data[..], end, count)
        invariant multiset(data[..count]) == old(Kept())
        decreases end
      {
        ghost var before := data[..];
        data[0], data[end - 1] := data[end - 1], data[0];
        assert data[..] == Swapped(before, 0, end - 1);
        SortStep(before, end, count);
        ghost var swapped := data[..];
        SiftDown(0, end - 1);
        SiftedKeepsOrder(swapped, data[..], end - 1, count);
        end := end - 1;
      }
      SortEnds(data[..], end, count);
      NoHeap(data[..]);
      size := 0;
    }

    method SiftUp(start: nat)
      requires start < data.Length && MaxHeapBut(data[..], start + 1, start)
      modifies data
      ensures MaxHeapTo(data[..], start + 1)
      ensures multiset(data[..start + 1]) == old(multiset(data[..start + 1]))
      ensures data[start + 1..] == old(data[start + 1..])
    {
      hide MaxHeapTo, MaxHeapBut;
      var index: nat := start;
      while index > 0
        invariant index <= start
        invariant MaxHeapBut(data[..], start + 1, index)
        invariant multiset(data[..start + 1]) == old(multiset(data[..start + 1]))
        invariant data[start + 1..] == old(data[start + 1..])
      {
        var parent := (index - 1) / 2;
        ghost var before := data[..];
        MaxRises(before, start + 1, index, parent);
        if !Less(data[parent], data[index]) {
          return;
        }
        data[parent], data[index] := data[index], data[parent];
        assert data[..] == Swapped(before, parent, index);
        SwapKeepsPrefix(before, parent, index, start + 1);
        index := parent;
      }
      RootRisen(data[..], start + 1);
    }

    method SiftDown(start: nat, count: nat)
      requires start < count <= data.Length && MaxHeapAbove(data[..], count, start)
      modifies data
      ensures MaxHeapTo(data[..], count)
      ensures multiset(data[..count]) == old(multiset(data[..count]))
      ensures data[count..] == old(data[count..])
    {
      hide MaxHeapTo, MaxHeapAbove;
      var index := start;
      while true
        invariant index < count
        invariant MaxHeapAbove(data[..], count, index)
        invariant multiset(data[..count]) == old(multiset(data[..count]))
        invariant data[count..] == old(data[count..])
        decreases count - index
      {
        ghost var before := data[..];
        var left := 2 * index + 1;
        if left >= count {
          MaxSettled(before, count, index);
          return;
        }
        var largest := left;
        var right := left + 1;
        if right < count && Less(data[left], data[right]) {
          largest := right;
        }
        MaxSinks(before, count, index, largest);
        if !Less(data[index], data[largest]) {
          return;
        }
        data[index], data[largest] := data[largest], data[index];
        assert data[..] == Swapped(before, index, largest);
        SwapKeepsPrefix(before, index, largest, count);
        index := largest;
      }
    }
  }

  /** From `end` on, every element is at least as bad as all before it. */
  ghost predicate SortedFrom(s: seq<Scored>, end: nat, count: nat)
    requires end <= count <= |s|
  {
    forall i, j :: 0 <= i < j < count && end <= j ==> !Less(s[j], s[i])
  }

  lemma SortStarts(s: seq<Scored>, count: nat)
    requires count <= |s|
    ensures SortedFrom(s, count, count)
  {
  }

  lemma SortEnds(s: seq<Scored>, end: nat, count: nat)
    requires end <= count <= |s| && end <= 1 && SortedFrom(s, end, count)
    ensures Ascending(s[..count])
  {
  }

  /** Moving the worst element behind the heap extends the sorted part. */
  lemma SortStep(s: seq<Scored>, end: nat, count: nat)
    requires 1 < end <= count <= |s| && MaxHeapTo(s, end) && SortedFrom(s, end, count)
    ensures var s' := Swapped(s, 0, end - 1);
      && MaxHeapAbove(s', end - 1, 0) && SortedFrom(s', end - 1, count)
      && multiset(s'[..count]) == multiset(s[..count])
  {
    HeapOfPrefix(s, end);
    forall i | 0 <= i < end ensures !Less(s[0], s[i]) {
      RootIsWorst(s[..end], i);
    }
    SwapKeepsPrefix(s, 0, end - 1, count);
  }

  lemma SamePlace(s: seq<Scored>, s': seq<Scored>, i: nat) returns (i': nat)
    requires multiset(s') == multiset(s) && i < |s'|
    ensures i' < |s| && s[i'] == s'[i]
  {
    assert s'[i] in multiset(s);
    assert s'[i] in s;
    i' :| 0 <= i' < |s| && s[i'] == s'[i];
  }

  /** Reordering the heap part does not disturb the sorted part. */
  lemma SiftedKeepsOrder(s: seq<Scored>, s': seq<Scored>, end: nat, count: nat)
    requires end <= count <= |s| == |s'| && SortedFrom(s, end, count)
    requires multiset(s'[..end]) == multiset(s[..end]) && s'[end..] == s[end..]
    ensures SortedFrom(s', end, count) && multiset(s'[..count]) == multiset(s[..count])
  {
    forall j | end <= j < |s| ensures s'[j] == s[j] {
      assert s'[j] == s'[end..][j - end];
    }
    forall i, j | 0 <= i < j < count && end <= j ensures !Less(s'[j], s'[i]) {
      var i': nat := i;
      if i < end {
        i' := SamePlace(s[..end], s'[..end], i);
      }
      assert s[i'] == s'[i] && s[j] == s'[j] && i' < j;
    }
    assert s'[..count] == s'[..end] + s'[end..count] && s[..count] == s[..end] + s[end..count];
    assert s'[end..count] == s[end..count];
  }

  // ---------------------------------------------------------------------------------------------
  // MinHeap
  // ---------------------------------------------------------------------------------------------

  class MinHeap {
    var data: seq<Scored>

    ghost predicate Valid()
      reads this
    {
      MinHeapOrder(data)
    }

    ghost function Content(): multiset<Scored>
      reads this
    {
      multiset(data)
    }

    constructor ()
      ensures Valid() && Content() == multiset{}
    {
      data := [];
    }

    method Clear()
      modifies this
      ensures Valid() && Content() == multiset{} && data == []
    {
      data := [];
    }

    /** Best queued candidate. */
    method Top() returns (c: Scored)
      requires Valid() && data != []
      ensures c == data[0] && c in Content() && forall y :: y in Content() ==> !Less(y, c)
    {
      c := data[0];
      forall y | y in Content() ensures !Less(y, c) {
        var i :| 0 <= i < |data| && data[i] == y;
        RootIsBest(data, i);
      }
    }

    method Push(c: Scored)
      requires Valid()
      modifies this
      ensures Valid() && Content() == old(Content()) + multiset{c}
      ensures |data| == old(|data|) + 1
    {
      data := data + [c];
      var index: nat := |data| - 1;
      while index > 0
        invariant index < |data| == old(|data|) + 1
        invariant MinHeapBut(data, index)
        invariant Content() == old(Content()) + multiset{c}
      {
        var parent := (index - 1) / 2;
        MinRises(data, index, parent);
        if !Less(data[index], data[parent]) {
          break;
        }
        SwapKeepsAll(data, parent, index);
        data := Swapped(data, parent, index);
        index := parent;
      }
    }

    /** Removes the best candidate. */
    method Pop()
      requires Valid() && data != []
      modifies this
      ensures Valid() && Content() == old(Content()) - multiset{old(data[0])}
      ensures |data| == old(|data|) - 1
    {
      var count := |data| - 1;
      LastToFront(data);
      data := data[0 := data[count]][..count];
      var index: nat := 0;
      while true
        invariant |data| == count && (index < count || index == 0)
        invariant MinHeapAbove(data, index)
        invariant Content() == old(Content()) - multiset{old(data[0])}
        decreases count - index
      {
        var left := 2 * index + 1;
        if left >= count {
          MinSettled(data, index);
          return;
        }
        var smallest := left;
        var right := left + 1;
        if right < count && Less(data[right], data[left]) {
          smallest := right;
        }
        MinSinks(data, index, smallest);
        if !Less(data[smallest], data[index]) {
          return;
        }
        SwapKeepsAll(data, index, smallest);
        data := Swapped(data, index, smallest);
        index := smallest;
      }
    }
  }
}
