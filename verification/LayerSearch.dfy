/** Graph search on one query: greedy descent, beam search on a level, and the query path.

    Distances to the query are given per node, the links of a level per node. Links are read from
    one snapshot of the graph; which ids a search may meet while insertions run is the subject of
    `LinkTheorems.TraversalSafe`. */
module LayerSearch {
  import opened Candidates
  import opened Frontiers
  import opened Heaps
  import opened VisitedSets

  type Links = seq<seq<nat>>

  ghost predicate WellFormed(links: Links, dist: seq<real>) {
    && |links| == |dist|
    && forall v, i :: 0 <= v < |links| && 0 <= i < |links[v]| ==> links[v][i] < |links|
  }

  /** `v` can be reached from `from` along links. */
  ghost predicate Reaches(links: Links, from: nat, v: nat, steps: nat)
    decreases steps
  {
    if steps == 0 then v == from
    else exists u: nat :: u < |links| && Reaches(links, from, u, steps - 1) && v in links[u]
  }

  ghost predicate Reachable(links: Links, from: set<nat>, v: nat) {
    exists s: nat, steps: nat :: s in from && Reaches(links, s, v, steps)
  }

  lemma ReachStart(links: Links, from: set<nat>, v: nat)
    requires v in from
    ensures Reachable(links, from, v)
  {
    assert Reaches(links, v, v, 0);
  }

  lemma ReachNext(links: Links, from: set<nat>, u: nat, v: nat)
    requires Reachable(links, from, u) && u < |links| && v in links[u]
    ensures Reachable(links, from, v)
  {
    var s: nat, steps: nat :| s in from && Reaches(links, s, u, steps);
    assert Reaches(links, s, v, steps + 1);
  }

  ghost predicate Closed(links: Links, ids: set<nat>) {
    forall u, i :: u in ids && u < |links| && 0 <= i < |links[u]| ==> links[u][i] in ids
  }

  /** A set that holds the start and is closed under links holds everything reachable. */
  lemma {:induction false} ClosedHoldsReach(links: Links, s: nat, v: nat, steps: nat, closed: set<nat>)
    requires s in closed && Reaches(links, s, v, steps)
    requires Closed(links, closed)
    ensures v in closed
    decreases steps
  {
    if steps > 0 {
      var u: nat :| u < |links| && Reaches(links, s, u, steps - 1) && v in links[u];
      ClosedHoldsReach(links, s, u, steps - 1, closed);
    }
  }

  // ---------------------------------------------------------------------------------------------
  // Greedy descent
  // ---------------------------------------------------------------------------------------------

  /** `v` is the best link of `u`, and better than `u`. */
  ghost predicate BestLink(links: Links, dist: seq<real>, u: nat, v: nat)
    requires WellFormed(links, dist)
  {
    && u < |links| && v in links[u] && Less(At(dist, v), At(dist, u))
    && forall x :: x in links[u] ==> !Less(At(dist, x), At(dist, v))
  }

  ghost predicate NoBetterLink(links: Links, dist: seq<real>, u: nat)
    requires WellFormed(links, dist)
  {
    u < |links| && forall x :: x in links[u] ==> !Less(At(dist, x), At(dist, u))
  }

  /** `steps` moves from `u`, each to the best link, lead to `v`. */
  ghost predicate Moves(links: Links, dist: seq<real>, u: nat, v: nat, steps: nat)
    requires WellFormed(links, dist)
    decreases steps
  {
    if steps == 0 then v == u
    else exists w: nat :: Moves(links, dist, u, w, steps - 1) && BestLink(links, dist, w, v)
  }

  /** Greedy search from `u` ends at `v`. */
  ghost predicate GreedyEnd(links: Links, dist: seq<real>, u: nat, v: nat)
    requires WellFormed(links, dist)
  {
    NoBetterLink(links, dist, v) && exists steps: nat :: Moves(links, dist, u, v, steps)
  }

  lemma BestLinkUnique(links: Links, dist: seq<real>, u: nat, v: nat, w: nat)
    requires WellFormed(links, dist) && BestLink(links, dist, u, v) && BestLink(links, dist, u, w)
    ensures v == w
  {
    assert !Less(At(dist, w), At(dist, v)) && !Less(At(dist, v), At(dist, w));
  }

  lemma {:induction false} MovesUnique(links: Links, dist: seq<real>, u: nat, v: nat, w: nat, steps: nat)
    requires WellFormed(links, dist) && Moves(links, dist, u, v, steps) && Moves(links, dist, u, w, steps)
    ensures v == w
    decreases steps
  {
    if steps > 0 {
      hide BestLink;
      var x: nat :| Moves(links, dist, u, x, steps - 1) && BestLink(links, dist, x, v);
      var y: nat :| Moves(links, dist, u, y, steps - 1) && BestLink(links, dist, y, w);
      MovesUnique(links, dist, u, x, y, steps - 1);
      BestLinkUnique(links, dist, x, v, w);
    }
  }

  /** A walk that goes on past `v` took a best link of `v`. */
  lemma {:induction false} MovesOn(links: Links, dist: seq<real>, u: nat, v: nat, w: nat, few: nat, many: nat)
    requires WellFormed(links, dist) && few < many
    requires Moves(links, dist, u, v, few) && Moves(links, dist, u, w, many)
    ensures exists x: nat :: BestLink(links, dist, v, x)
    decreases many
  {
    var y: nat :| Moves(links, dist, u, y, many - 1) && BestLink(links, dist, y, w);
    if few == many - 1 {
      MovesUnique(links, dist, u, v, y, few);
    } else {
      MovesOn(links, dist, u, v, y, few, many - 1);
    }
  }

  /** Greedy search ends at one node only. */
  lemma GreedyEndUnique(links: Links, dist: seq<real>, u: nat, v: nat, w: nat)
    requires WellFormed(links, dist) && GreedyEnd(links, dist, u, v) && GreedyEnd(links, dist, u, w)
    ensures v == w
  {
    var m: nat :| Moves(links, dist, u, v, m);
    var n: nat :| Moves(links, dist, u, w, n);
    if m < n {
      MovesOn(links, dist, u, v, w, m, n);
    } else if n < m {
      MovesOn(links, dist, u, w, v, n, m);
    } else {
      MovesUnique(links, dist, u, v, w, m);
    }
  }

  /** Moves to the best neighbour until none is better. */
  method GreedySearch(links: Links, dist: seq<real>, start: Scored) returns (current: Scored)
    requires WellFormed(links, dist)
    requires start.id < |dist| && start == At(dist, start.id)
    ensures current.id < |dist| && current == At(dist, current.id)
    ensures !Less(start, current)
    ensures Reachable(links, {start.id}, current.id)
    ensures GreedyEnd(links, dist, start.id, current.id)
  {
    current := start;
    ReachStart(links, {start.id}, start.id);
    ghost var better := set v: nat | v < |dist| && Less(At(dist, v), current);
    ghost var steps: nat := 0;
    var changed := true;
    while changed
      invariant current.id < |dist| && current == At(dist, current.id) && !Less(start, current)
      invariant Reachable(links, {start.id}, current.id) && Moves(links, dist, start.id, current.id, steps)
      invariant better == set v: nat | v < |dist| && Less(At(dist, v), current)
      invariant !changed ==> NoBetterLink(links, dist, current.id)
      decreases better, changed
    {
      hide Reachable, Moves;
      changed := false;
      var view := links[current.id];
      ghost var base, better0 := current, better;
      for i := 0 to |view|
        invariant current.id < |dist| && current == At(dist, current.id) && !Less(start, current)
        invariant Reachable(links, {start.id}, current.id)
        invariant changed ==> Less(current, base) && current.id in view
        invariant !changed ==> current == base
        invariant forall j :: 0 <= j < i ==> !Less(At(dist, view[j]), current)
      {
        var candidate := At(dist, view[i]);
        if Less(candidate, current) {
          ReachNext(links, {start.id}, base.id, view[i]);
          current := candidate;
          changed := true;
        }
      }
      better := set v: nat | v < |dist| && Less(At(dist, v), current);
      if changed {
        assert current.id in better0 && current.id !in better;
        MovesNext(links, dist, start.id, base.id, current.id, steps);
        steps := steps + 1;
      }
    }
  }

  lemma MovesNext(links: Links, dist: seq<real>, u: nat, v: nat, w: nat, steps: nat)
    requires WellFormed(links, dist) && Moves(links, dist, u, v, steps) && BestLink(links, dist, v, w)
    ensures Moves(links, dist, u, w, steps + 1)
  {
  }

  // ---------------------------------------------------------------------------------------------
  // Beam search
  // ---------------------------------------------------------------------------------------------

  ghost function Live(visited: set<nat>, deleted: set<nat>): set<nat> {
    visited - deleted
  }

  /** The result is full and `v` is worse than all of it. */
  ghost predicate Hopeless(v: Scored, kept: multiset<Scored>, ef: nat) {
    |kept| == ef && forall k :: k in kept ==> Less(k, v)
  }

  lemma StillHopeless(v: Scored, kept: multiset<Scored>, c: Scored, ef: nat, kept': multiset<Scored>)
    requires Hopeless(v, kept, ef) && Pushed(kept, c, ef, kept')
    ensures Hopeless(v, kept', ef)
  {
    if kept' != kept {
      var w :| IsWorst(w, kept) && Less(c, w) && kept' == kept - multiset{w} + multiset{c};
      forall k | k in kept' ensures Less(k, v) {
        if k != c { assert k in kept; }
      }
    }
  }

  /** State of the beam search between two steps: `visited` nodes, `expanded` ones, the queue and
      the results; `open` is the node being expanded, if any. */
  ghost predicate Beam(links: Links, dist: seq<real>, reach: set<nat>, deleted: set<nat>, ef: nat,
                       visited: set<nat>, expanded: set<nat>, open: set<nat>,
                       queue: multiset<Scored>, kept: multiset<Scored>)
  {
    && expanded <= visited && open <= visited
    && (forall v :: v in visited ==> v < |dist| && v in reach)
    && (forall c :: c in queue ==> c.id in visited && c.id < |dist| && c == At(dist, c.id))
    && (forall v :: v in visited ==>
          v in expanded || v in open || At(dist, v) in queue || Hopeless(At(dist, v), kept, ef))
    && (forall u, i :: u in expanded && u < |links| && 0 <= i < |links[u]| ==> links[u][i] in visited)
    && KeepsBest(kept, multiset(Score(dist, Live(visited, deleted))), ef)
  }

  lemma NoBetterIsHopeless(c: Scored, worst: Scored, kept: multiset<Scored>, ef: nat)
    requires IsWorst(worst, kept) && !Less(c, worst) && |kept| == ef && c !in kept
    ensures Hopeless(c, kept, ef)
  {
    forall k | k in kept ensures Less(k, c) {
      assert worst != c && !Less(worst, k);
    }
  }

  /** Only visited nodes are kept. */
  lemma KeptIsVisited(links: Links, dist: seq<real>, reach: set<nat>, deleted: set<nat>, ef: nat,
                      visited: set<nat>, expanded: set<nat>, open: set<nat>,
                      queue: multiset<Scored>, kept: multiset<Scored>)
    requires Beam(links, dist, reach, deleted, ef, visited, expanded, open, queue, kept)
    ensures forall c :: c in kept ==> c.id in visited
  {
    forall c | c in kept ensures c.id in visited {
      assert c in multiset(Score(dist, Live(visited, deleted)));
    }
  }

  lemma RefuseHopeless(kept: multiset<Scored>, c: Scored, ef: nat, all: multiset<Scored>)
    requires KeepsBest(kept, all, ef) && Hopeless(c, kept, ef)
    ensures KeepsBest(kept, all + multiset{c}, ef)
  {
    RefuseKeepsBest(kept, c, ef, all);
  }

  /** A fresh node is visited: queued (and kept if live) unless it is hopeless. */
  lemma BeamVisit(links: Links, dist: seq<real>, reach: set<nat>, deleted: set<nat>, ef: nat,
                  visited: set<nat>, expanded: set<nat>, open: set<nat>,
                  queue: multiset<Scored>, kept: multiset<Scored>,
                  v: nat, queue': multiset<Scored>, kept': multiset<Scored>)
    requires Beam(links, dist, reach, deleted, ef, visited, expanded, open, queue, kept)
    requires v < |dist| && v !in visited && v in reach
    requires
      || (Hopeless(At(dist, v), kept, ef) && queue' == queue && kept' == kept)
      || (queue' == queue + multiset{At(dist, v)} &&
          if v in deleted then kept' == kept else Pushed(kept, At(dist, v), ef, kept'))
    ensures Beam(links, dist, reach, deleted, ef, visited + {v}, expanded, open, queue', kept')
  {
    hide Hopeless, Pushed, KeepsBest, Score;
    var c := At(dist, v);
    var visited' := visited + {v};
    var all := multiset(Score(dist, Live(visited, deleted)));
    if v in deleted {
      assert Live(visited', deleted) == Live(visited, deleted);
    } else {
      assert Live(visited', deleted) == Live(visited, deleted) + {v};
      ScoreAdd(dist, Live(visited, deleted), v);
      if kept' == kept && Hopeless(c, kept, ef) {
        RefuseHopeless(kept, c, ef, all);
      } else {
        PushKeepsBest(kept, c, ef, kept', all);
      }
    }
    forall u | u in visited'
      ensures u in expanded || u in open || At(dist, u) in queue' || Hopeless(At(dist, u), kept', ef)
    {
      if u != v && Hopeless(At(dist, u), kept, ef) && kept' != kept {
        StillHopeless(At(dist, u), kept, c, ef, kept');
      }
    }
  }

  /** The node that was open is expanded once all its links are visited. */
  lemma BeamClose(links: Links, dist: seq<real>, reach: set<nat>, deleted: set<nat>, ef: nat,
                  visited: set<nat>, expanded: set<nat>, u: nat, queue: multiset<Scored>, kept: multiset<Scored>)
    requires Beam(links, dist, reach, deleted, ef, visited, expanded, {u}, queue, kept)
    requires u < |links| && forall i :: 0 <= i < |links[u]| ==> links[u][i] in visited
    ensures Beam(links, dist, reach, deleted, ef, visited, expanded + {u}, {}, queue, kept)
  {}

  lemma BeamStart(links: Links, dist: seq<real>, reach: set<nat>, deleted: set<nat>, ef: nat)
    ensures Beam(links, dist, reach, deleted, ef, {}, {}, {}, multiset{}, multiset{})
  {
    assert Score(dist, Live({}, deleted)) == {};
  }

  lemma VisitedInReach(links: Links, dist: seq<real>, reach: set<nat>, deleted: set<nat>, ef: nat,
                       visited: set<nat>, expanded: set<nat>, queue: multiset<Scored>, kept: multiset<Scored>)
    requires Beam(links, dist, reach, deleted, ef, visited, expanded, {}, queue, kept)
    ensures visited <= reach
  {}

  /** The best queued node becomes open. */
  lemma BeamOpen(links: Links, dist: seq<real>, reach: set<nat>, deleted: set<nat>, ef: nat,
                 visited: set<nat>, expanded: set<nat>, c: Scored, queue: multiset<Scored>, kept: multiset<Scored>)
    requires Beam(links, dist, reach, deleted, ef, visited, expanded, {}, queue, kept) && c in queue
    ensures c.id < |dist| && c.id in reach
    ensures Beam(links, dist, reach, deleted, ef, visited, expanded, {c.id}, queue - multiset{c}, kept)
  {
    forall v | v in visited && v != c.id
      ensures v in expanded || At(dist, v) in queue - multiset{c} || Hopeless(At(dist, v), kept, ef)
    {
      if At(dist, v) in queue { assert At(dist, v) != c; }
    }
  }

  /** If the best queued node is worse than a full result, all queued nodes are hopeless. */
  lemma QueueHopeless(queue: multiset<Scored>, kept: multiset<Scored>, nearest: Scored, worst: Scored, ef: nat)
    requires IsWorst(worst, kept) && |kept| == ef && Less(worst, nearest)
    requires forall c :: c in queue ==> !Less(c, nearest)
    ensures forall c :: c in queue ==> Hopeless(c, kept, ef)
  {}

  /** The outcome of a beam search: nothing that was left unexpanded could improve the result. */
  ghost predicate BeamDone(links: Links, dist: seq<real>, from: set<nat>, reach: set<nat>, deleted: set<nat>,
                           ef: nat, visited: set<nat>, expanded: set<nat>, kept: multiset<Scored>)
  {
    && from <= visited && expanded <= visited
    && (forall v :: v in visited ==> v < |dist| && v in reach)
    && (forall u, i :: u in expanded && u < |links| && 0 <= i < |links[u]| ==> links[u][i] in visited)
    && (forall v :: v in visited - expanded ==> v < |dist| && Hopeless(At(dist, v), kept, ef))
    && KeepsBest(kept, multiset(Score(dist, Live(visited, deleted))), ef)
  }

  lemma BeamEnds(links: Links, dist: seq<real>, from: set<nat>, reach: set<nat>, deleted: set<nat>, ef: nat,
                 visited: set<nat>, expanded: set<nat>, queue: multiset<Scored>, kept: multiset<Scored>)
    requires Beam(links, dist, reach, deleted, ef, visited, expanded, {}, queue, kept) && from <= visited
    requires forall c :: c in queue ==> Hopeless(c, kept, ef)
    ensures BeamDone(links, dist, from, reach, deleted, ef, visited, expanded, kept)
  {}

  ghost predicate Ready(visited: VisitedSet, candidates: MinHeap, results: BoundedMaxHeap, nodes: nat)
    reads visited, candidates, results, results.data
  {
    visited.Valid() && |visited.marks| >= nodes && candidates.Valid() && results.Valid() && results.data.Length >= 1
  }

  /** The beam invariant on the three objects of a running search. */
  ghost predicate Running(visited: VisitedSet, candidates: MinHeap, results: BoundedMaxHeap,
                          links: Links, dist: seq<real>, reach: set<nat>, deleted: set<nat>,
                          expanded: set<nat>, open: set<nat>)
    reads visited, candidates, results, results.data
    requires Ready(visited, candidates, results, |links|)
  {
    Beam(links, dist, reach, deleted, results.data.Length, visited.Visited(), expanded, open,
         candidates.Content(), results.Kept())
  }

  ghost function Front(visited: VisitedSet, candidates: MinHeap, results: BoundedMaxHeap): Frontier
    reads visited, candidates, results, results.data
    requires visited.Valid() && candidates.Valid() && results.Valid()
  {
    Frontier(visited.Visited(), candidates.Content(), results.Kept())
  }

  lemma KeptSize(results: BoundedMaxHeap)
    requires results.Valid()
    ensures |results.Kept()| == results.size && (results.size == 0 ==> results.Kept() == multiset{})
  {}

  /** Offers a node to the queue and the results if it can improve them. */
  method VisitNode(visited: VisitedSet, candidates: MinHeap, results: BoundedMaxHeap,
                   links: Links, dist: seq<real>, candidate: Scored, always: bool, deleted: set<nat>,
                   ghost reach: set<nat>, ghost expanded: set<nat>, ghost open: set<nat>)
    requires Ready(visited, candidates, results, |links|) && |links| == |dist|
    requires Running(visited, candidates, results, links, dist, reach, deleted, expanded, open)
    requires candidate.id < |dist| && candidate == At(dist, candidate.id) && candidate.id in reach
    modifies visited, candidates, results`size, results.data
    ensures Ready(visited, candidates, results, |links|) && |visited.marks| == old(|visited.marks|)
    ensures visited.Visited() == old(visited.Visited()) + {candidate.id}
    ensures Running(visited, candidates, results, links, dist, reach, deleted, expanded, open)
    ensures Front(visited, candidates, results) ==
      Visit(dist, deleted, results.data.Length, always, old(Front(visited, candidates, results)), candidate.id)
    ensures visited.Visited() == old(visited.Visited()) ==> candidates.data == old(candidates.data)
  {
    hide Beam, MaxHeapTo, MinHeapOrder, KeepsBest, Pushed, Hopeless, IsWorst, Offered, BeatsWorst, At, Visit;
    ghost var v0, q0, k0 := visited.Visited(), candidates.Content(), results.Kept();
    KeptSize(results);
    var unseen := visited.Visit(candidate.id);
    if !unseen {
      assert visited.Visited() == v0;
      VisitedBefore(dist, deleted, results.data.Length, always, Frontier(v0, q0, k0), candidate.id);
      return;
    }
    var wanted := always || !results.Full();
    if !wanted {
      var worst := results.Top();
      wanted := Less(candidate, worst);
      WorstDecides(candidate, worst, k0);
      if !wanted {
        KeptIsVisited(links, dist, reach, deleted, results.data.Length, v0, expanded, open, q0, k0);
        NoBetterIsHopeless(candidate, worst, k0, results.data.Length);
      }
    }
    if wanted {
      candidates.Push(candidate);
      if candidate.id !in deleted {
        var kept := results.Push(candidate);
        PushedIsOffered(k0, candidate, results.data.Length, results.Kept());
      }
    }
    VisitIs(dist, deleted, results.data.Length, always, Frontier(v0, q0, k0), candidate.id, wanted,
            Front(visited, candidates, results));
    BeamVisit(links, dist, reach, deleted, results.data.Length, v0, expanded, open, q0, k0, candidate.id,
              candidates.Content(), results.Kept());
  }

  /** Visits the links of one node. */
  method ExpandNode(visited: VisitedSet, candidates: MinHeap, results: BoundedMaxHeap,
                    links: Links, dist: seq<real>, node: nat, deleted: set<nat>,
                    ghost reach: set<nat>, ghost expanded: set<nat>)
    requires Ready(visited, candidates, results, |links|) && WellFormed(links, dist) && node < |links|
    requires Closed(links, reach) && node in reach
    requires Running(visited, candidates, results, links, dist, reach, deleted, expanded, {node})
    modifies visited, candidates, results`size, results.data
    ensures Ready(visited, candidates, results, |links|) && |visited.marks| == old(|visited.marks|)
    ensures old(visited.Visited()) <= visited.Visited()
    ensures Running(visited, candidates, results, links, dist, reach, deleted, expanded + {node}, {})
    ensures Front(visited, candidates, results) ==
      VisitFirst(dist, deleted, results.data.Length, false, old(Front(visited, candidates, results)), links[node], |links[node]|)
    ensures visited.Visited() == old(visited.Visited()) ==> candidates.data == old(candidates.data)
  {
    hide Beam, MinHeapOrder, MaxHeapTo, Visit, VisitFirst, BoundedMaxHeap.Kept, MinHeap.Content, VisitedSet.Visited;
    VisitNone(dist, deleted, results.data.Length, false, Front(visited, candidates, results), links[node]);
    var view := links[node];
    for i := 0 to |view|
      invariant Ready(visited, candidates, results, |links|) && |visited.marks| == old(|visited.marks|)
      invariant old(visited.Visited()) <= visited.Visited()
      invariant forall j :: 0 <= j < i ==> view[j] in visited.Visited()
      invariant Running(visited, candidates, results, links, dist, reach, deleted, expanded, {node})
      invariant Front(visited, candidates, results) ==
        VisitFirst(dist, deleted, results.data.Length, false, old(Front(visited, candidates, results)), view, i)
      invariant visited.Visited() == old(visited.Visited()) ==> candidates.data == old(candidates.data)
    {
      VisitNext(dist, deleted, results.data.Length, false, old(Front(visited, candidates, results)), view, i);
      VisitNode(visited, candidates, results, links, dist, At(dist, view[i]), false, deleted, reach, expanded, {node});
    }
    BeamClose(links, dist, reach, deleted, results.data.Length, visited.Visited(), expanded, node,
              candidates.Content(), results.Kept());
  }

  /** The state in which a search starts: every entry point was visited. */
  ghost function Seeded(dist: seq<real>, deleted: set<nat>, ef: nat, entryPoints: seq<Scored>): Frontier
    requires forall e :: e in entryPoints ==> e.id < |dist|
  {
    VisitFirst(dist, deleted, ef, true, NOTHING_VISITED, Ids(entryPoints), |entryPoints|)
  }

  ghost function Ids(list: seq<Scored>): (ids: seq<nat>)
    ensures |ids| == |list| && forall i :: 0 <= i < |list| ==> ids[i] == list[i].id
  {
    seq(|list|, i requires 0 <= i < |list| => list[i].id)
  }

  lemma EntryIds(dist: seq<real>, entryPoints: seq<Scored>)
    requires forall e :: e in entryPoints ==> e.id < |dist|
    ensures forall i :: 0 <= i < |Ids(entryPoints)| ==> Ids(entryPoints)[i] < |dist|
  {
    forall i | 0 <= i < |Ids(entryPoints)| ensures Ids(entryPoints)[i] < |dist| {
      assert entryPoints[i] in entryPoints;
    }
  }

  /** Starts a search from the given entry points. */
  method SeedSearch(visited: VisitedSet, candidates: MinHeap, results: BoundedMaxHeap,
                    links: Links, dist: seq<real>, entryPoints: seq<Scored>, deleted: set<nat>,
                    ghost reach: set<nat>)
    requires |links| == |dist| && visited.Valid() && |visited.marks| >= |links|
    requires results.Valid() && results.size == 0 && results.data.Length >= 1
    requires forall e :: e in entryPoints ==> e.id < |dist| && e == At(dist, e.id) && e.id in reach
    modifies visited, candidates, results`size, results.data
    ensures Ready(visited, candidates, results, |links|) && |visited.marks| == old(|visited.marks|)
    ensures forall e :: e in entryPoints ==> e.id in visited.Visited()
    ensures Running(visited, candidates, results, links, dist, reach, deleted, {}, {})
    ensures Front(visited, candidates, results) == Seeded(dist, deleted, results.data.Length, entryPoints)
  {
    hide Beam, MinHeapOrder, MaxHeapTo, Visit, VisitFirst, Ids, At, BoundedMaxHeap.Kept, MinHeap.Content, VisitedSet.Visited;
    ghost var ef := results.data.Length;
    EntryIds(dist, entryPoints);
    KeptSize(results);
    visited.Reset();
    candidates.Clear();
    BeamStart(links, dist, reach, deleted, ef);
    VisitNone(dist, deleted, ef, true, NOTHING_VISITED, Ids(entryPoints));
    for i := 0 to |entryPoints|
      invariant Ready(visited, candidates, results, |links|) && |visited.marks| == old(|visited.marks|)
      invariant forall j :: 0 <= j < i ==> entryPoints[j].id in visited.Visited()
      invariant Running(visited, candidates, results, links, dist, reach, deleted, {}, {})
      invariant Front(visited, candidates, results) ==
        VisitFirst(dist, deleted, ef, true, NOTHING_VISITED, Ids(entryPoints), i)
    {
      VisitNext(dist, deleted, ef, true, NOTHING_VISITED, Ids(entryPoints), i);
      VisitNode(visited, candidates, results, links, dist, entryPoints[i], true, deleted, reach, {}, {});
    }
  }

  /** The best queued node, and whether it is already worse than a full result. */
  method NextNode(candidates: MinHeap, results: BoundedMaxHeap) returns (nearest: Scored, stop: bool)
    requires candidates.Valid() && results.Valid() && candidates.data != [] && results.data.Length >= 1
    ensures nearest == candidates.data[0] && nearest in candidates.Content()
    ensures IsBest(nearest, candidates.Content())
    ensures stop ==> forall c :: c in candidates.Content() ==> Hopeless(c, results.Kept(), results.data.Length)
    ensures stop == (|results.Kept()| == results.data.Length
                     && exists w :: IsWorst(w, results.Kept()) && Less(w, nearest))
  {
    nearest := candidates.Top();
    stop := results.Full();
    KeptSize(results);
    if stop {
      var worst := results.Top();
      forall w | IsWorst(w, results.Kept()) ensures w == worst { WorstIsOne(w, worst, results.Kept()); }
      stop := Less(worst, nearest);
      if stop {
        QueueHopeless(candidates.Content(), results.Kept(), nearest, worst, results.data.Length);
      }
    }
  }

  lemma MoreVisited(reach: set<nat>, seen: set<nat>, now: set<nat>)
    requires seen <= now <= reach
    ensures now == seen || reach - now < reach - seen
  {
    if now != seen {
      var v :| v in now && v !in seen;
      assert v in reach - seen && v !in reach - now;
    }
  }

  lemma LinksInRange(links: Links, dist: seq<real>)
    requires WellFormed(links, dist)
    ensures |links| == |dist|
    ensures forall v, i :: 0 <= v < |links| && 0 <= i < |links[v]| ==> links[v][i] < |dist|
  {
  }

  /** One round of the search: unless it is over, the best queued node is expanded. */
  method Round(visited: VisitedSet, candidates: MinHeap, results: BoundedMaxHeap,
               links: Links, dist: seq<real>, deleted: set<nat>, ghost reach: set<nat>, ghost expanded: set<nat>)
    returns (stop: bool, ghost node: set<nat>)
    requires Ready(visited, candidates, results, |links|) && WellFormed(links, dist) && Closed(links, reach)
    requires candidates.data != []
    requires Running(visited, candidates, results, links, dist, reach, deleted, expanded, {})
    modifies visited, candidates, results`size, results.data
    ensures Ready(visited, candidates, results, |links|) && |visited.marks| == old(|visited.marks|)
    ensures Running(visited, candidates, results, links, dist, reach, deleted, expanded + node, {})
    ensures old(visited.Visited()) <= visited.Visited() <= reach
    ensures stop ==> Ended(Front(visited, candidates, results), results.data.Length)
    ensures stop ==> forall c :: c in candidates.Content() ==> Hopeless(c, results.Kept(), results.data.Length)
    ensures stop ==> Front(visited, candidates, results) == old(Front(visited, candidates, results))
    ensures !stop ==>
      Front(visited, candidates, results) ==
      Expand(links, dist, deleted, results.data.Length, old(Front(visited, candidates, results)))
    ensures !stop && visited.Visited() == old(visited.Visited()) ==> |candidates.data| < old(|candidates.data|)
  {
    hide Ended, IsBest, IsWorst, Expand, VisitFirst, Beam, Hopeless, MinHeapOrder, MaxHeapTo, Closed, WellFormed, At,
         BoundedMaxHeap.Kept, MinHeap.Content, VisitedSet.Visited;
    LinksInRange(links, dist);
    ghost var ef, front := results.data.Length, Front(visited, candidates, results);
    var nearest: Scored;
    nearest, stop := NextNode(candidates, results);
    KeptSize(results);
    EndsWhen(front, ef, nearest);
    node := {};
    VisitedInReach(links, dist, reach, deleted, ef, visited.Visited(), expanded, candidates.Content(), results.Kept());
    if !stop {
      BeamOpen(links, dist, reach, deleted, ef, visited.Visited(), expanded, nearest, candidates.Content(), results.Kept());
      candidates.Pop();
      ExpandNode(visited, candidates, results, links, dist, nearest.id, deleted, reach, expanded);
      node := {nearest.id};
      VisitedInReach(links, dist, reach, deleted, ef, visited.Visited(), expanded + node, candidates.Content(), results.Kept());
      ExpandsBest(links, dist, deleted, ef, front, nearest);
    }
    assert expanded + {} == expanded;
  }

  /** Best-first search with beam width `ef`, the capacity of `results`. The result holds exactly
      the `ef` best live nodes visited, and every visited node that is better than its worst
      element has been expanded. */
  method SearchLayer(visited: VisitedSet, candidates: MinHeap, results: BoundedMaxHeap,
                     links: Links, dist: seq<real>, entryPoints: seq<Scored>, deleted: set<nat>,
                     ghost reach: set<nat>)
    returns (ghost expanded: set<nat>, ghost rounds: nat)
    requires WellFormed(links, dist) && visited.Valid() && |visited.marks| >= |links|
    requires results.Valid() && results.size == 0 && results.data.Length >= 1
    requires forall e :: e in entryPoints ==> e.id < |dist| && e == At(dist, e.id) && e.id in reach
    requires Closed(links, reach)
    modifies visited, candidates, results`size, results.data
    ensures Ready(visited, candidates, results, |links|) && |visited.marks| == old(|visited.marks|)
    ensures BeamDone(links, dist, set e | e in entryPoints :: e.id, reach, deleted, results.data.Length,
                     visited.Visited(), expanded, results.Kept())
    ensures var end := Front(visited, candidates, results);
      && Ended(end, results.data.Length)
      && end == After(links, dist, deleted, results.data.Length,
                      Seeded(dist, deleted, results.data.Length, entryPoints), rounds)
  {
    hide Ended, Seeded, Expand, Beam, BeamDone, Hopeless, MinHeapOrder, MaxHeapTo, Closed, WellFormed, At;
    ghost var from, ef := set e | e in entryPoints :: e.id, results.data.Length;
    LinksInRange(links, dist);
    expanded, rounds := {}, 0;
    SeedSearch(visited, candidates, results, links, dist, entryPoints, deleted, reach);
    var stop := false;
    ghost var left, queued := reach - visited.Visited(), |candidates.data|;
    while !stop && candidates.data != []
      invariant Ready(visited, candidates, results, |links|) && |visited.marks| == old(|visited.marks|)
      invariant from <= visited.Visited()
      invariant Running(visited, candidates, results, links, dist, reach, deleted, expanded, {})
      invariant left == reach - visited.Visited() && queued == |candidates.data|
      invariant Front(visited, candidates, results) ==
        After(links, dist, deleted, ef, Seeded(dist, deleted, ef, entryPoints), rounds)
      invariant stop ==> Ended(Front(visited, candidates, results), ef)
      invariant stop ==> forall c :: c in candidates.Content() ==> Hopeless(c, results.Kept(), ef)
      decreases !stop, left, queued
    {
      ghost var seen := visited.Visited();
      ghost var node: set<nat>;
      stop, node := Round(visited, candidates, results, links, dist, deleted, reach, expanded);
      expanded := expanded + node;
      if !stop {
        MoreVisited(reach, seen, visited.Visited());
        rounds := rounds + 1;
      }
      left, queued := reach - visited.Visited(), |candidates.data|;
    }
    if !stop {
      EmptyEnds(Front(visited, candidates, results), ef);
    }
    BeamEnds(links, dist, from, reach, deleted, results.data.Length, visited.Visited(), expanded,
             candidates.Content(), results.Kept());
  }

  // ---------------------------------------------------------------------------------------------
  // Exactness
  // ---------------------------------------------------------------------------------------------

  /** All nodes that can be reached. */
  ghost function Region(links: Links, from: set<nat>): (r: set<nat>) {
    set v | v in Nodes(|links|) && Reachable(links, from, v)
  }

  lemma RegionClosed(links: Links, dist: seq<real>, from: set<nat>)
    requires WellFormed(links, dist) && forall s :: s in from ==> s < |links|
    ensures from <= Region(links, from) && Closed(links, Region(links, from))
  {
    forall s | s in from ensures s in Region(links, from) {
      ReachStart(links, from, s);
    }
    assert from <= Region(links, from);
    forall u, i | u in Region(links, from) && u < |links| && 0 <= i < |links[u]|
      ensures links[u][i] in Region(links, from)
    {
      ReachNext(links, from, u, links[u][i]);
    }
  }

  lemma SubsetOfSameSize(a: set<nat>, b: set<nat>)
    requires a <= b && |a| >= |b|
    ensures a == b
  {
    assert b == a + (b - a);
    assert |b| == |a| + |b - a|;
  }

  lemma BeamDoneFacts(links: Links, dist: seq<real>, from: set<nat>, reach: set<nat>, deleted: set<nat>, ef: nat,
                      visited: set<nat>, expanded: set<nat>, kept: multiset<Scored>)
    requires BeamDone(links, dist, from, reach, deleted, ef, visited, expanded, kept)
    ensures from <= visited <= reach && (|kept| < ef ==> Closed(links, visited))
    ensures forall v :: v in visited ==> v < |dist|
    ensures var all := multiset(Score(dist, Live(visited, deleted)));
      kept <= all && |kept| == (if |all| < ef then |all| else ef)
  {
    if |kept| < ef {
      forall v | v in visited ensures v in expanded {
        assert v in expanded || v in visited - expanded;
      }
    }
  }

  /** A visited node that was not expanded is worse than each of `ef` kept ones. */
  lemma LeftOutIsWorse(links: Links, dist: seq<real>, from: set<nat>, reach: set<nat>, deleted: set<nat>, ef: nat,
                       visited: set<nat>, expanded: set<nat>, kept: multiset<Scored>)
    requires BeamDone(links, dist, from, reach, deleted, ef, visited, expanded, kept)
    ensures forall v :: v in visited ==> v < |dist|
    ensures forall v, c :: v in visited - expanded && c in kept ==> Less(c, At(dist, v))
    ensures visited != expanded ==> |kept| == ef
  {
    if visited != expanded {
      var v :| v in visited && v !in expanded;
      assert v in visited - expanded;
    }
  }

  /** A beam at least as wide as the live region finds exactly the live region. */
  lemma WideBeamIsExact(links: Links, dist: seq<real>, from: set<nat>, deleted: set<nat>, ef: nat,
                        visited: set<nat>, expanded: set<nat>, kept: multiset<Scored>)
    requires WellFormed(links, dist)
    requires BeamDone(links, dist, from, Region(links, from), deleted, ef, visited, expanded, kept)
    requires ef >= |Live(Region(links, from), deleted)|
    ensures kept == multiset(Score(dist, Live(Region(links, from), deleted)))
  {
    var found := Live(visited, deleted);
    BeamDoneFacts(links, dist, from, Region(links, from), deleted, ef, visited, expanded, kept);
    hide BeamDone, Region, Closed, KeepsBest;
    ScoreSize(dist, found);
    if |kept| < ef {
      ExhaustedBeam(links, dist, from, visited);
    } else {
      SubsetOfSameSize(found, Live(Region(links, from), deleted));
    }
    NoneLeftOut(kept, multiset(Score(dist, found)));
  }

  /** If every visited node was expanded, everything reachable was visited. */
  lemma ExhaustedBeam(links: Links, dist: seq<real>, from: set<nat>, visited: set<nat>)
    requires from <= visited <= Region(links, from) && Closed(links, visited)
    ensures visited == Region(links, from)
  {
    forall v | v in Region(links, from) ensures v in visited {
      var s: nat, steps: nat :| s in from && Reaches(links, s, v, steps);
      ClosedHoldsReach(links, s, v, steps, visited);
    }
  }

  /** Greedy search on every level from `level` down to 1, starting at `u`, ends at `v`. */
  ghost predicate DescendsTo(levels: seq<Links>, dist: seq<real>, u: nat, level: nat, v: nat)
    requires level < |levels| && forall l :: 0 <= l < |levels| ==> WellFormed(levels[l], dist)
    decreases level
  {
    if level == 0 then v == u
    else exists w: nat :: GreedyEnd(levels[level], dist, u, w) && DescendsTo(levels, dist, w, level - 1, v)
  }

  /** The descent ends at one node only. */
  lemma {:induction false} DescentUnique(levels: seq<Links>, dist: seq<real>, u: nat, level: nat, v: nat, w: nat)
    requires level < |levels| && forall l :: 0 <= l < |levels| ==> WellFormed(levels[l], dist)
    requires DescendsTo(levels, dist, u, level, v) && DescendsTo(levels, dist, u, level, w)
    ensures v == w
    decreases level
  {
    if level > 0 {
      hide GreedyEnd;
      var x: nat :| GreedyEnd(levels[level], dist, u, x) && DescendsTo(levels, dist, x, level - 1, v);
      var y: nat :| GreedyEnd(levels[level], dist, u, y) && DescendsTo(levels, dist, y, level - 1, w);
      GreedyEndUnique(levels[level], dist, u, x, y);
      DescentUnique(levels, dist, x, level - 1, v, w);
    }
  }

  /** On level 1 no link of the node the descent ends at is better than it. */
  lemma {:induction false} DescentEndsBest(levels: seq<Links>, dist: seq<real>, u: nat, level: nat, v: nat)
    requires 0 < level < |levels| && forall l :: 0 <= l < |levels| ==> WellFormed(levels[l], dist)
    requires DescendsTo(levels, dist, u, level, v)
    ensures NoBetterLink(levels[1], dist, v)
    decreases level
  {
    var w: nat :| GreedyEnd(levels[level], dist, u, w) && DescendsTo(levels, dist, w, level - 1, v);
    if level > 1 {
      DescentEndsBest(levels, dist, w, level - 1, v);
    }
  }

  lemma DescendOneLevel(levels: seq<Links>, dist: seq<real>, u: nat, level: nat, w: nat, v: nat)
    requires 0 < level < |levels| && forall l :: 0 <= l < |levels| ==> WellFormed(levels[l], dist)
    requires GreedyEnd(levels[level], dist, u, w) && DescendsTo(levels, dist, w, level - 1, v)
    ensures DescendsTo(levels, dist, u, level, v)
  {
  }

  /** Greedy descent through the upper levels. */
  method Descend(levels: seq<Links>, dist: seq<real>, entry: nat, entryLevel: nat) returns (current: Scored)
    requires entryLevel < |levels| && forall l :: 0 <= l < |levels| ==> WellFormed(levels[l], dist)
    requires entry < |dist|
    ensures current.id < |dist| && current == At(dist, current.id) && !Less(At(dist, entry), current)
    ensures DescendsTo(levels, dist, entry, entryLevel, current.id)
  {
    hide GreedyEnd;
    current := At(dist, entry);
    var level: nat := entryLevel;
    while level > 0
      invariant level <= entryLevel && current.id < |dist| && current == At(dist, current.id)
      invariant !Less(At(dist, entry), current)
      invariant forall v: nat :: DescendsTo(levels, dist, current.id, level, v) ==> DescendsTo(levels, dist, entry, entryLevel, v)
    {
      ghost var before := current.id;
      current := GreedySearch(levels[level], dist, current);
      forall v: nat | DescendsTo(levels, dist, current.id, level - 1, v)
        ensures DescendsTo(levels, dist, before, level, v)
      {
        DescendOneLevel(levels, dist, before, level, current.id, v);
      }
      level := level - 1;
    }
  }

  /** The state in which the beam search from one node ends. */
  ghost predicate SearchEnd(links: Links, dist: seq<real>, start: nat, deleted: set<nat>, ef: nat, end: Frontier)
    requires WellFormed(links, dist) && start < |dist|
  {
    && Ended(end, ef)
    && exists rounds: nat ::
         end == After(links, dist, deleted, ef, Seeded(dist, deleted, ef, [At(dist, start)]), rounds)
  }

  lemma SearchEnds(links: Links, dist: seq<real>, start: nat, deleted: set<nat>, ef: nat, end: Frontier, rounds: nat)
    requires WellFormed(links, dist) && start < |dist| && Ended(end, ef)
    requires end == After(links, dist, deleted, ef, Seeded(dist, deleted, ef, [At(dist, start)]), rounds)
    ensures SearchEnd(links, dist, start, deleted, ef, end)
  {
    hide Ended, After, Seeded;
  }

  /** A search from one node ends in one state only. */
  lemma SearchEndUnique(links: Links, dist: seq<real>, start: nat, deleted: set<nat>, ef: nat,
                        a: Frontier, b: Frontier)
    requires WellFormed(links, dist) && start < |dist|
    requires SearchEnd(links, dist, start, deleted, ef, a) && SearchEnd(links, dist, start, deleted, ef, b)
    ensures a == b
  {
    var seeded := Seeded(dist, deleted, ef, [At(dist, start)]);
    var m: nat :| a == After(links, dist, deleted, ef, seeded, m);
    var n: nat :| b == After(links, dist, deleted, ef, seeded, n);
    if m <= n {
      StaysEnded(links, dist, deleted, ef, seeded, m, n);
    } else {
      StaysEnded(links, dist, deleted, ef, seeded, n, m);
    }
  }

  /** Beam search on level 0 and the first `k` of its sorted result. */
  method BestOf(links: Links, dist: seq<real>, start: Scored, k: nat, ef: nat, deleted: set<nat>)
    returns (out: seq<Scored>, ghost expanded: set<nat>, ghost end: Frontier)
    requires WellFormed(links, dist) && start.id < |dist| && start == At(dist, start.id) && 1 <= k <= ef
    requires {start.id} <= Region(links, {start.id}) && Closed(links, Region(links, {start.id}))
    ensures BeamDone(links, dist, {start.id}, Region(links, {start.id}), deleted, ef, end.visited, expanded, end.kept)
    ensures SearchEnd(links, dist, start.id, deleted, ef, end)
    ensures Ascending(out) && KeepsBest(multiset(out), end.kept, k)
    ensures |Live(Region(links, {start.id}), deleted)| <= ef ==>
      KeepsBest(multiset(out), multiset(Score(dist, Live(Region(links, {start.id}), deleted))), k)
  {
    hide Region, BeamDone, Closed, KeepsBest, MaxHeapTo, MinHeapOrder, SearchEnd, Seeded, Ended, After, Score, Ascending;
    hide WellFormed, At, BoundedMaxHeap.Kept, MinHeap.Content, VisitedSet.Visited;
    LinksInRange(links, dist);
    var visited := new VisitedSet();
    visited.EnsureCapacity(|dist|);
    var candidates := new MinHeap();
    var storage := new Scored[ef](_ => start);
    var results := new BoundedMaxHeap(storage);
    ghost var region := Region(links, {start.id});
    ghost var rounds: nat;
    expanded, rounds := SearchLayer(visited, candidates, results, links, dist, [start], deleted, region);
    end := Front(visited, candidates, results);
    SearchEnds(links, dist, start.id, deleted, ef, end, rounds);
    assert (set e | e in [start] :: e.id) == {start.id};
    if |Live(region, deleted)| <= ef {
      WideBeamIsExact(links, dist, {start.id}, deleted, ef, end.visited, expanded, end.kept);
    }
    out := TakeFirst(results, k);
  }

  /** Sorts the results and returns the first `k` of them. */
  method TakeFirst(results: BoundedMaxHeap, k: nat) returns (out: seq<Scored>)
    requires results.Valid()
    modifies results`size, results.data
    ensures Ascending(out) && |out| <= k && KeepsBest(multiset(out), old(results.Kept()), k)
    ensures forall c :: c in out ==> c in old(results.Kept())
  {
    hide MaxHeapTo;
    var found := results.SortAscending();
    FirstAreBest(results.data[..found], k);
    out := results.data[..if found < k then found else k];
    assert out == results.data[..found][..|out|];
    forall c | c in out ensures c in old(results.Kept()) {
      assert c in multiset(results.data[..found]);
    }
  }

  datatype EntryPoint = NoEntry | Entry(id: nat, level: nat)

  /** What a query answers: the greedy descent ends at `start`, the beam from `start` ends in `end`, and
      `out` is the best `k` of what the beam kept, in ascending order. */
  ghost predicate Answers(levels: seq<Links>, dist: seq<real>, entry: EntryPoint, k: nat, ef: nat, deleted: set<nat>,
                          start: nat, end: Frontier, out: seq<Scored>)
    requires forall l :: 0 <= l < |levels| ==> WellFormed(levels[l], dist)
    requires entry.Entry? && entry.level < |levels|
  {
    && start < |dist| && DescendsTo(levels, dist, entry.id, entry.level, start)
    && SearchEnd(levels[0], dist, start, deleted, ef, end)
    && Ascending(out) && KeepsBest(multiset(out), end.kept, k)
  }

  /** A query has one answer. */
  lemma AnswerUnique(levels: seq<Links>, dist: seq<real>, entry: EntryPoint, k: nat, ef: nat, deleted: set<nat>,
                     start: nat, end: Frontier, out: seq<Scored>, start': nat, end': Frontier, out': seq<Scored>)
    requires forall l :: 0 <= l < |levels| ==> WellFormed(levels[l], dist)
    requires entry.Entry? && entry.level < |levels|
    requires Answers(levels, dist, entry, k, ef, deleted, start, end, out)
    requires Answers(levels, dist, entry, k, ef, deleted, start', end', out')
    ensures out == out'
  {
    hide SearchEnd, DescendsTo, Ascending, KeepsBest;
    DescentUnique(levels, dist, entry.id, entry.level, start, start');
    SearchEndUnique(levels[0], dist, start, deleted, ef, end, end');
    BestUnique(multiset(out), multiset(out'), end.kept, k);
    AscendingUnique(out, out');
  }

  /** A query: greedy descent through the upper levels, then a beam on level 0. `start` is the one node
      that the descent ends at (`DescentUnique`). The result is the `k` best of what the beam kept; that are
      the `ef` best of the live nodes it visited, and any visited node it did not expand is worse than each of
      `ef` kept ones. If the beam is at least as wide as the live part of the region reachable from `start`,
      the result is exactly the `k` nearest of that. */
  method SearchWith(levels: seq<Links>, dist: seq<real>, entry: EntryPoint,
                    k: nat, knobEf: nat, efSearch: nat, deleted: set<nat>)
    returns (out: seq<Scored>, ghost start: nat, ghost expanded: set<nat>, ghost end: Frontier)
    requires forall l :: 0 <= l < |levels| ==> WellFormed(levels[l], dist)
    requires entry.Entry? ==> entry.id < |dist| && entry.level < |levels|
    requires k >= 1
    ensures entry.NoEntry? ==> out == []
    ensures entry.Entry? ==>
      && start < |dist| && !Less(At(dist, entry.id), At(dist, start))
      && (entry.level > 0 ==> NoBetterLink(levels[1], dist, start))
      && var ef := Max(if knobEf != 0 then knobEf else efSearch, k);
      && var region := Region(levels[0], {start});
      && Answers(levels, dist, entry, k, ef, deleted, start, end, out)
      && |out| == Min(k, |end.kept|)
      && start in end.visited && end.visited <= region && expanded <= end.visited
      && (forall u, i :: u in expanded && 0 <= i < |levels[0][u]| ==> levels[0][u][i] in end.visited)
      && KeepsBest(end.kept, multiset(Score(dist, Live(end.visited, deleted))), ef)
      && (forall v, c :: v in end.visited - expanded && c in end.kept ==> Less(c, At(dist, v)))
      && (end.visited != expanded ==> |end.kept| == ef)
      && (|Live(region, deleted)| <= ef ==> KeepsBest(multiset(out), multiset(Score(dist, Live(region, deleted))), k))
  {
    hide KeepsBest, Ascending, NoBetterLink, SearchEnd, DescendsTo, Less, Region, Closed, Score;
    if entry.NoEntry? {
      return [], 0, {}, NOTHING_VISITED;
    }
    var current := Descend(levels, dist, entry.id, entry.level);
    start := current.id;
    if entry.level > 0 {
      DescentEndsBest(levels, dist, entry.id, entry.level, start);
    }
    RegionClosed(levels[0], dist, {start});
    var ef := Max(if knobEf != 0 then knobEf else efSearch, k);
    out, expanded, end := BestOf(levels[0], dist, current, k, ef, deleted);
    BestSize(multiset(out), end.kept, k);
    LeftOutIsWorse(levels[0], dist, {start}, Region(levels[0], {start}), deleted, ef, end.visited, expanded, end.kept);
  }

  lemma BestSize(best: multiset<Scored>, all: multiset<Scored>, k: nat)
    requires KeepsBest(best, all, k)
    ensures |best| == Min(k, |all|)
  {
  }

  function Min(a: nat, b: nat): nat {
    if a < b then a else b
  }

  function Max(a: nat, b: nat): nat {
    if a < b then b else a
  }
}
