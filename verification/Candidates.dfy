/** Search candidates, their total order, and what it means to keep the best of them.

    A distance is a real number: distances are only compared, and validated inputs exclude NaN. */
module Candidates {

  datatype Scored = Scored(distance: real, id: nat)

  predicate Less(a: Scored, b: Scored) {
    a.distance < b.distance || (a.distance == b.distance && a.id < b.id)
  }

  /** Ascending order, ties allowed. */
  ghost predicate Ascending(s: seq<Scored>) {
    forall i, j :: 0 <= i < j < |s| ==> !Less(s[j], s[i])
  }

  /** `kept` holds the `k` best of `all`, or all of them if there are no more. */
  ghost predicate KeepsBest(kept: multiset<Scored>, all: multiset<Scored>, k: nat) {
    && kept <= all
    && |kept| == (if |all| < k then |all| else k)
    && forall x, y :: x in kept && y in all - kept ==> !Less(y, x)
  }

  ghost predicate IsWorst(x: Scored, s: multiset<Scored>) {
    x in s && forall y :: y in s ==> !Less(x, y)
  }

  /** What `BoundedMaxHeap::push` may leave: the candidate joins, replaces a worst one, or is refused. */
  ghost predicate Pushed(before: multiset<Scored>, c: Scored, capacity: nat, after: multiset<Scored>) {
    if |before| < capacity then after == before + multiset{c}
    else
      || (after == before && forall x :: x in before ==> !Less(c, x))
      || (exists w :: IsWorst(w, before) && Less(c, w) && after == before - multiset{w} + multiset{c})
  }

  lemma NoneLeftOut(kept: multiset<Scored>, all: multiset<Scored>)
    requires kept <= all && |kept| == |all|
    ensures kept == all
  {
    assert all == kept + (all - kept);
    assert |all - kept| == 0;
  }

  lemma ReplaceKeepsBest(before: multiset<Scored>, c: Scored, w: Scored, k: nat, all: multiset<Scored>)
    requires KeepsBest(before, all, k) && |before| >= k
    requires IsWorst(w, before) && Less(c, w)
    ensures KeepsBest(before - multiset{w} + multiset{c}, all + multiset{c}, k)
  {
    var after, all' := before - multiset{w} + multiset{c}, all + multiset{c};
    assert after <= all';
    assert |after| == |before|;
    forall x, y | x in after && y in all' - after ensures !Less(y, x) {
      if y != w { assert y in all - before; }
      if x != c { assert x in before; }
    }
  }

  lemma RefuseKeepsBest(before: multiset<Scored>, c: Scored, k: nat, all: multiset<Scored>)
    requires KeepsBest(before, all, k) && |before| >= k
    requires forall x :: x in before ==> !Less(c, x)
    ensures KeepsBest(before, all + multiset{c}, k)
  {
    forall x, y | x in before && y in all + multiset{c} - before ensures !Less(y, x) {
      if y != c { assert y in all - before; }
    }
  }

  /** Pushing keeps the best of everything pushed so far. */
  lemma PushKeepsBest(before: multiset<Scored>, c: Scored, k: nat, after: multiset<Scored>, all: multiset<Scored>)
    requires KeepsBest(before, all, k) && Pushed(before, c, k, after)
    ensures KeepsBest(after, all + multiset{c}, k)
  {
    if |before| < k {
      NoneLeftOut(before, all);
      assert all + multiset{c} - after == multiset{};
    } else if after == before && (forall x :: x in before ==> !Less(c, x)) {
      RefuseKeepsBest(before, c, k, all);
    } else {
      var w :| IsWorst(w, before) && Less(c, w) && after == before - multiset{w} + multiset{c};
      ReplaceKeepsBest(before, c, w, k, all);
    }
  }

  /** The result of a search is determined: two ascending lists of the best `k` are equal. */
  lemma {:induction false} AscendingUnique(a: seq<Scored>, b: seq<Scored>)
    requires Ascending(a) && Ascending(b) && multiset(a) == multiset(b)
    ensures a == b
    decreases |a|
  {
    assert |a| == |multiset(a)| == |multiset(b)| == |b|;
    if a != [] {
      SameHead(a, b);
      assert a == [a[0]] + a[1..] && b == [b[0]] + b[1..];
      assert multiset(a[1..]) == multiset(a) - multiset{a[0]};
      assert multiset(b[1..]) == multiset(b) - multiset{b[0]};
      AscendingUnique(a[1..], b[1..]);
    }
  }

  lemma SameHead(a: seq<Scored>, b: seq<Scored>)
    requires Ascending(a) && Ascending(b) && multiset(a) == multiset(b) && |a| == |b| > 0
    ensures a[0] == b[0]
  {
    assert a[0] in multiset(b) && b[0] in multiset(a);
    var i :| 0 <= i < |b| && b[i] == a[0];
    var j :| 0 <= j < |a| && a[j] == b[0];
  }

  lemma BestUnique(a: multiset<Scored>, b: multiset<Scored>, all: multiset<Scored>, k: nat)
    requires KeepsBest(a, all, k) && KeepsBest(b, all, k)
    ensures a == b
  {
    if a != b {
      var x := Surplus(a, b);
      var y := Surplus(b, a);
      SurplusLeftOut(a, b, all, x);
      SurplusLeftOut(b, a, all, y);
    }
  }

  lemma SurplusLeftOut(a: multiset<Scored>, b: multiset<Scored>, all: multiset<Scored>, x: Scored)
    requires a <= all && a[x] > b[x]
    ensures x in a && x in all - b
  {}

  /** Of two different multisets of one size, each has more of some element than the other. */
  lemma Surplus(a: multiset<Scored>, b: multiset<Scored>) returns (x: Scored)
    requires |a| == |b| && a != b
    ensures a[x] > b[x]
  {
    if a <= b { NoneLeftOut(a, b); }
    x :| a[x] > b[x];
  }

  // ---------------------------------------------------------------------------------------------
  // Nodes and their distances to one query
  // ---------------------------------------------------------------------------------------------

  function At(dist: seq<real>, v: nat): Scored
    requires v < |dist|
  {
    Scored(dist[v], v)
  }

  ghost function Score(dist: seq<real>, ids: set<nat>): set<Scored> {
    set v | v in ids && v < |dist| :: At(dist, v)
  }

  lemma ScoreAdd(dist: seq<real>, ids: set<nat>, v: nat)
    requires v < |dist| && v !in ids
    ensures multiset(Score(dist, ids + {v})) == multiset(Score(dist, ids)) + multiset{At(dist, v)}
  {
    assert At(dist, v) !in Score(dist, ids);
    assert Score(dist, ids + {v}) == Score(dist, ids) + {At(dist, v)};
  }

  function Nodes(n: nat): (ids: set<nat>)
    ensures forall v: nat :: v in ids <==> v < n
  {
    if n == 0 then {} else Nodes(n - 1) + {n - 1}
  }

  lemma {:induction false} ScoreSize(dist: seq<real>, ids: set<nat>)
    requires forall v :: v in ids ==> v < |dist|
    ensures |Score(dist, ids)| == |ids|
  {
    if ids == {} {
      assert Score(dist, ids) == {};
    } else {
      var v :| v in ids;
      ScoreSize(dist, ids - {v});
      assert Score(dist, ids) == Score(dist, ids - {v}) + {At(dist, v)};
    }
  }

  /** The first elements of an ascending list are its best. */
  lemma FirstAreBest(s: seq<Scored>, k: nat)
    requires Ascending(s)
    ensures var n := if |s| < k then |s| else k;
      Ascending(s[..n]) && KeepsBest(multiset(s[..n]), multiset(s), k)
  {
    var n := if |s| < k then |s| else k;
    var head, tail := multiset(s[..n]), multiset(s[n..]);
    assert s == s[..n] + s[n..];
    assert multiset(s) - head == tail;
    forall x, y | x in head && y in tail ensures !Less(y, x) {
      var i :| 0 <= i < n && s[..n][i] == x;
      var j :| 0 <= j < |s| - n && s[n..][j] == y;
      assert !Less(s[n + j], s[i]);
    }
  }
}
