/** The states a beam search goes through, on values: what is visited, queued and kept after each step.

    `LayerSearch` runs the same search on two heaps and a visited set; its methods are proved to pass
    through exactly these states. */
module Frontiers {
  import opened Candidates

  datatype Frontier = Frontier(visited: set<nat>, queue: multiset<Scored>, kept: multiset<Scored>)

  const NOTHING_VISITED := Frontier({}, multiset{}, multiset{})

  ghost predicate IsBest(x: Scored, s: multiset<Scored>) {
    x in s && forall y :: y in s ==> !Less(y, x)
  }

  /** `c` is better than the worst of `kept`. */
  ghost predicate BeatsWorst(c: Scored, kept: multiset<Scored>) {
    exists w :: IsWorst(w, kept) && Less(c, w)
  }

  /** The best `ef` once `c` was offered to a bounded result. */
  ghost function Offered(kept: multiset<Scored>, c: Scored, ef: nat): multiset<Scored> {
    if |kept| < ef then kept + multiset{c}
    else if BeatsWorst(c, kept) then
      var w :| IsWorst(w, kept) && Less(c, w);
      kept - multiset{w} + multiset{c}
    else kept
  }

  /** A visit to one node: a node not visited before is queued, and kept if it is live, when it can
      improve the result; an entry point is queued in any case. */
  ghost function Visit(dist: seq<real>, deleted: set<nat>, ef: nat, always: bool, f: Frontier, v: nat): Frontier
    requires v < |dist|
  {
    var c := At(dist, v);
    if v in f.visited then f
    else if always || |f.kept| < ef || BeatsWorst(c, f.kept) then
      Frontier(f.visited + {v}, f.queue + multiset{c}, if v in deleted then f.kept else Offered(f.kept, c, ef))
    else f.(visited := f.visited + {v})
  }

  lemma VisitedBefore(dist: seq<real>, deleted: set<nat>, ef: nat, always: bool, f: Frontier, v: nat)
    requires v < |dist| && v in f.visited
    ensures Visit(dist, deleted, ef, always, f, v) == f
  {
  }

  lemma VisitIs(dist: seq<real>, deleted: set<nat>, ef: nat, always: bool, f: Frontier, v: nat, wanted: bool, g: Frontier)
    requires v < |dist| && v !in f.visited && g.visited == f.visited + {v}
    requires wanted <==> always || |f.kept| < ef || BeatsWorst(At(dist, v), f.kept)
    requires wanted ==> g.queue == f.queue + multiset{At(dist, v)}
    requires wanted ==> g.kept == if v in deleted then f.kept else Offered(f.kept, At(dist, v), ef)
    requires !wanted ==> g.queue == f.queue && g.kept == f.kept
    ensures Visit(dist, deleted, ef, always, f, v) == g
  {
    hide Offered, BeatsWorst, At;
  }

  /** Visits to the first `n` nodes of a list, in order. */
  ghost function VisitFirst(dist: seq<real>, deleted: set<nat>, ef: nat, always: bool, f: Frontier,
                            view: seq<nat>, n: nat): Frontier
    requires n <= |view| && forall i :: 0 <= i < |view| ==> view[i] < |dist|
    decreases n
  {
    if n == 0 then f
    else Visit(dist, deleted, ef, always, VisitFirst(dist, deleted, ef, always, f, view, n - 1), view[n - 1])
  }

  /** The search is over: nothing is queued, or the best queued node is worse than all of a full result. */
  ghost predicate Ended(f: Frontier, ef: nat) {
    f.queue == multiset{}
    || (|f.kept| == ef && exists c, w :: IsBest(c, f.queue) && IsWorst(w, f.kept) && Less(w, c))
  }

  /** One round: the best queued node leaves the queue and its links are visited. */
  ghost function Expand(links: seq<seq<nat>>, dist: seq<real>, deleted: set<nat>, ef: nat, f: Frontier): Frontier
    requires forall v, i :: 0 <= v < |links| && 0 <= i < |links[v]| ==> links[v][i] < |dist|
  {
    if !Ended(f, ef) && exists c :: IsBest(c, f.queue) && c.id < |links| then
      var c :| IsBest(c, f.queue) && c.id < |links|;
      VisitFirst(dist, deleted, ef, false, f.(queue := f.queue - multiset{c}), links[c.id], |links[c.id]|)
    else f
  }

  /** The state after `n` rounds of the search that starts at `start`. */
  ghost function After(links: seq<seq<nat>>, dist: seq<real>, deleted: set<nat>, ef: nat, start: Frontier,
                       n: nat): Frontier
    requires forall v, i :: 0 <= v < |links| && 0 <= i < |links[v]| ==> links[v][i] < |dist|
    decreases n
  {
    if n == 0 then start else Expand(links, dist, deleted, ef, After(links, dist, deleted, ef, start, n - 1))
  }

  lemma VisitNone(dist: seq<real>, deleted: set<nat>, ef: nat, always: bool, f: Frontier, view: seq<nat>)
    requires forall i :: 0 <= i < |view| ==> view[i] < |dist|
    ensures VisitFirst(dist, deleted, ef, always, f, view, 0) == f
  {
  }

  lemma VisitNext(dist: seq<real>, deleted: set<nat>, ef: nat, always: bool, f: Frontier, view: seq<nat>, n: nat)
    requires n < |view| && forall i :: 0 <= i < |view| ==> view[i] < |dist|
    ensures VisitFirst(dist, deleted, ef, always, f, view, n + 1) ==
      Visit(dist, deleted, ef, always, VisitFirst(dist, deleted, ef, always, f, view, n), view[n])
  {
  }

  lemma BestIsOne(a: Scored, b: Scored, s: multiset<Scored>)
    requires IsBest(a, s) && IsBest(b, s)
    ensures a == b
  {
    assert !Less(a, b) && !Less(b, a);
  }

  lemma WorstIsOne(a: Scored, b: Scored, s: multiset<Scored>)
    requires IsWorst(a, s) && IsWorst(b, s)
    ensures a == b
  {
    assert !Less(a, b) && !Less(b, a);
  }

  /** One look at a worst kept candidate decides. */
  lemma WorstDecides(c: Scored, w: Scored, kept: multiset<Scored>)
    requires IsWorst(w, kept)
    ensures BeatsWorst(c, kept) <==> Less(c, w)
  {
    if BeatsWorst(c, kept) {
      var v :| IsWorst(v, kept) && Less(c, v);
      WorstIsOne(v, w, kept);
    }
  }

  /** A push to the bounded result leaves what the offer leaves. */
  lemma PushedIsOffered(before: multiset<Scored>, c: Scored, ef: nat, after: multiset<Scored>)
    requires Pushed(before, c, ef, after)
    ensures after == Offered(before, c, ef)
  {
    if |before| >= ef && BeatsWorst(c, before) {
      var v :| IsWorst(v, before) && Less(c, v);
      forall w | IsWorst(w, before) ensures w == v { WorstIsOne(v, w, before); }
    }
  }

  /** The test the search makes before it takes the best queued node. */
  lemma EndsWhen(f: Frontier, ef: nat, c: Scored)
    requires IsBest(c, f.queue) && |f.kept| <= ef
    ensures Ended(f, ef) <==> |f.kept| == ef && exists w :: IsWorst(w, f.kept) && Less(w, c)
  {
    if Ended(f, ef) {
      var d, w :| IsBest(d, f.queue) && IsWorst(w, f.kept) && Less(w, d);
      BestIsOne(c, d, f.queue);
    }
  }

  lemma EmptyEnds(f: Frontier, ef: nat)
    requires f.queue == multiset{}
    ensures Ended(f, ef)
  {
  }

  /** The best queued node is the one a round expands. */
  lemma ExpandsBest(links: seq<seq<nat>>, dist: seq<real>, deleted: set<nat>, ef: nat, f: Frontier, c: Scored)
    requires forall v, i :: 0 <= v < |links| && 0 <= i < |links[v]| ==> links[v][i] < |dist|
    requires !Ended(f, ef) && IsBest(c, f.queue) && c.id < |links|
    ensures Expand(links, dist, deleted, ef, f) ==
      VisitFirst(dist, deleted, ef, false, f.(queue := f.queue - multiset{c}), links[c.id], |links[c.id]|)
  {
    hide Ended, VisitFirst, IsBest;
    forall d | IsBest(d, f.queue) ensures d == c { BestIsOne(c, d, f.queue); }
  }

  /** A search that is over stays as it is. */
  lemma {:induction false} StaysEnded(links: seq<seq<nat>>, dist: seq<real>, deleted: set<nat>, ef: nat,
                                      start: Frontier, m: nat, n: nat)
    requires forall v, i :: 0 <= v < |links| && 0 <= i < |links[v]| ==> links[v][i] < |dist|
    requires m <= n && Ended(After(links, dist, deleted, ef, start, m), ef)
    ensures After(links, dist, deleted, ef, start, n) == After(links, dist, deleted, ef, start, m)
    decreases n
  {
    hide Ended;
    if m < n {
      StaysEnded(links, dist, deleted, ef, start, m, n - 1);
    }
  }
}
