/** Neighbour selection, and the re-selection of a full list. `shrink_with` is shown to make one of
    the choices that the insertion protocol allows (`LinkProtocol.Reselection`). */
module NeighborSelect {
  import opened Candidates
  import Link = LinkProtocol

  datatype Selection = Heuristic | Simple

  function Min(a: nat, b: nat): nat {
    if a < b then a else b
  }

  /** `c` is at least as close to the base as to everything already accepted. */
  predicate Good(c: Scored, accepted: seq<Scored>, d: (nat, nat) -> real) {
    forall i :: 0 <= i < |accepted| ==> !(d(c.id, accepted[i].id) < c.distance)
  }

  datatype Scan = Scan(accepted: seq<Scored>, discarded: seq<Scored>)

  function ScanOne(s: Scan, c: Scored, m: nat, d: (nat, nat) -> real): Scan {
    if |s.accepted| == m then s
    else if Good(c, s.accepted, d) then s.(accepted := s.accepted + [c])
    else s.(discarded := s.discarded + [c])
  }

  /** The heuristic after the first `n` candidates. */
  function ScanTo(sorted: seq<Scored>, n: nat, m: nat, d: (nat, nat) -> real): Scan
    requires n <= |sorted|
  {
    if n == 0 then Scan([], []) else ScanOne(ScanTo(sorted, n - 1, m, d), sorted[n - 1], m, d)
  }

  lemma ScanNone(sorted: seq<Scored>, m: nat, d: (nat, nat) -> real)
    ensures ScanTo(sorted, 0, m, d) == Scan([], [])
  {
  }

  lemma ScanNext(sorted: seq<Scored>, n: nat, m: nat, d: (nat, nat) -> real)
    requires n < |sorted|
    ensures ScanTo(sorted, n + 1, m, d) == ScanOne(ScanTo(sorted, n, m, d), sorted[n], m, d)
  {
  }

  function Selected(sorted: seq<Scored>, m: nat, selection: Selection, keepPruned: bool,
                    d: (nat, nat) -> real): seq<Scored>
  {
    if selection.Simple? then sorted[..Min(|sorted|, m)]
    else
      var s := ScanTo(sorted, |sorted|, m, d);
      if keepPruned && |s.accepted| <= m then s.accepted + s.discarded[..Min(|s.discarded|, m - |s.accepted|)]
      else s.accepted
  }

  method SelectNeighbors(sorted: seq<Scored>, m: nat, selection: Selection, keepPruned: bool,
                         d: (nat, nat) -> real) returns (out: seq<Scored>)
    ensures out == Selected(sorted, m, selection, keepPruned, d)
    ensures Ranked(sorted) ==> Selects(sorted, m, selection, keepPruned, d, out)
  {
    hide Ranked, Selects, ScanTo;
    ScanNone(sorted, m, d);
    if Ranked(sorted) {
      SelectedIsDescribed(sorted, m, selection, keepPruned, d);
    }
    if selection.Simple? {
      return sorted[..Min(|sorted|, m)];
    }
    out := [];
    var discarded := [];
    var i := 0;
    while i < |sorted| && |out| != m
      invariant i <= |sorted| && |out| <= m
      invariant out == ScanTo(sorted, i, m, d).accepted
      invariant keepPruned ==> discarded == ScanTo(sorted, i, m, d).discarded
    {
      ScanNext(sorted, i, m, d);
      var candidate := sorted[i];
      var good := true;
      var j := 0;
      while j < |out|
        invariant j <= |out| && good
        invariant forall k :: 0 <= k < j ==> !(d(candidate.id, out[k].id) < candidate.distance)
      {
        if d(candidate.id, out[j].id) < candidate.distance {
          good := false;
          break;
        }
        j := j + 1;
      }
      if good {
        out := out + [candidate];
      } else if keepPruned {
        discarded := discarded + [candidate];
      }
      i := i + 1;
    }
    FullScanStays(sorted, i, m, d);
    if keepPruned {
      var r := 0;
      ghost var accepted := out;
      while r < |discarded| && |out| != m
        invariant r <= |discarded| && |out| <= m
        invariant out == accepted + discarded[..r]
      {
        out := out + [discarded[r]];
        r := r + 1;
      }
    }
  }

  lemma {:induction false} FullScanStays(sorted: seq<Scored>, n: nat, m: nat, d: (nat, nat) -> real)
    requires n <= |sorted| && (n == |sorted| || |ScanTo(sorted, n, m, d).accepted| == m)
    ensures ScanTo(sorted, |sorted|, m, d) == ScanTo(sorted, n, m, d)
    decreases |sorted| - n
  {
    if n < |sorted| { FullScanStays(sorted, n + 1, m, d); }
  }

  /** Two parts of the candidates: disjoint, at most `m` accepted, and complete until `m` are. */
  ghost predicate Parts(a: seq<Scored>, b: seq<Scored>, front: seq<Scored>, m: nat) {
    && |a| <= m && multiset(a) + multiset(b) <= multiset(front)
    && (|a| < m ==> multiset(a) + multiset(b) == multiset(front))
  }

  /** Accepted and discarded candidates together are a prefix of the input, each once. */
  lemma {:induction false} ScanPartitions(sorted: seq<Scored>, n: nat, m: nat, d: (nat, nat) -> real)
    requires n <= |sorted|
    ensures var s := ScanTo(sorted, n, m, d); Parts(s.accepted, s.discarded, sorted[..n], m)
  {
    hide Parts, ScanOne;
    if n == 0 {
      NoParts(sorted, m);
    } else {
      ScanPartitions(sorted, n - 1, m, d);
      assert sorted[..n] == sorted[..n - 1] + [sorted[n - 1]];
      OneMorePart(sorted[..n - 1], ScanTo(sorted, n - 1, m, d), sorted[n - 1], m, d);
    }
  }

  lemma NoParts(sorted: seq<Scored>, m: nat)
    ensures Parts([], [], sorted[..0], m)
  {
  }

  /** One more candidate goes to one side or, when the selection is full, to neither. */
  lemma OneMorePart(front: seq<Scored>, s: Scan, c: Scored, m: nat, d: (nat, nat) -> real)
    requires Parts(s.accepted, s.discarded, front, m)
    ensures var t := ScanOne(s, c, m, d); Parts(t.accepted, t.discarded, front + [c], m)
  {
    hide Good;
  }

  lemma RefillBounds(sorted: seq<Scored>, a: seq<Scored>, b: seq<Scored>, take: nat)
    requires multiset(a) + multiset(b) <= multiset(sorted) && take <= |b|
    ensures multiset(a + b[..take]) <= multiset(sorted)
    ensures multiset(a) + multiset(b) == multiset(sorted) ==> |a| + |b| == |sorted|
  {
    assert b == b[..take] + b[take..];
    assert multiset(a + b) == multiset(a) + multiset(b);
    if multiset(a + b) == multiset(sorted) {
      assert |a + b| == |multiset(a + b)| == |sorted|;
    }
  }

  /** The selection takes each candidate at most once and at most `m` of them; with `keepPruned`,
      or without the heuristic, it leaves no slot free that a candidate could fill. */
  lemma SelectionBounds(sorted: seq<Scored>, m: nat, selection: Selection, keepPruned: bool, d: (nat, nat) -> real)
    ensures var out := Selected(sorted, m, selection, keepPruned, d);
      && multiset(out) <= multiset(sorted) && |out| <= m
      && (selection.Simple? || keepPruned ==> |out| == Min(|sorted|, m))
  {
    hide ScanTo, Min, Parts;
    if selection.Simple? {
      PrefixBounds(sorted, m);
    } else {
      var s := ScanTo(sorted, |sorted|, m, d);
      WholeScan(sorted, m, d);
      RefillFills(sorted, s.accepted, s.discarded, m);
      NoRefill(sorted, s.accepted, s.discarded, m);
    }
  }

  lemma WholeScan(sorted: seq<Scored>, m: nat, d: (nat, nat) -> real)
    ensures var s := ScanTo(sorted, |sorted|, m, d); Parts(s.accepted, s.discarded, sorted, m)
  {
    hide Parts, ScanTo;
    ScanPartitions(sorted, |sorted|, m, d);
    assert sorted[..|sorted|] == sorted;
  }

  lemma NoRefill(sorted: seq<Scored>, a: seq<Scored>, b: seq<Scored>, m: nat)
    requires Parts(a, b, sorted, m)
    ensures multiset(a) <= multiset(sorted) && |a| <= m
  {
  }

  lemma PrefixBounds(sorted: seq<Scored>, m: nat)
    ensures Min(|sorted|, m) <= |sorted| && Min(|sorted|, m) <= m
    ensures multiset(sorted[..Min(|sorted|, m)]) <= multiset(sorted)
  {
    assert sorted == sorted[..Min(|sorted|, m)] + sorted[Min(|sorted|, m)..];
  }

  /** Refilling from the discarded candidates leaves no slot free that one of them could take. */
  lemma RefillFills(sorted: seq<Scored>, a: seq<Scored>, b: seq<Scored>, m: nat)
    requires Parts(a, b, sorted, m)
    ensures var take := Min(|b|, m - |a|);
            take <= |b| && multiset(a + b[..take]) <= multiset(sorted) && |a| + take == Min(|sorted|, m) <= m
  {
    var take := Min(|b|, m - |a|);
    RefillBounds(sorted, a, b, take);
    if |a| == m {
      AtMost(a, sorted);
    }
  }

  lemma AtMost(a: seq<Scored>, b: seq<Scored>)
    requires multiset(a) <= multiset(b)
    ensures |a| <= |b|
  {
    assert multiset(b) == multiset(a) + (multiset(b) - multiset(a));
    assert |multiset(a)| == |a| && |multiset(b)| == |b|;
  }

  /** No accepted candidate is nearer to an earlier accepted one than to the base. */
  predicate Spread(a: seq<Scored>, d: (nat, nat) -> real) {
    forall i, j :: 0 <= i < j < |a| ==> !(d(a[j].id, a[i].id) < a[j].distance)
  }

  /** A candidate among the first `n` is only passed over for being nearer to an accepted one. */
  predicate PassedOver(sorted: seq<Scored>, n: nat, a: seq<Scored>, d: (nat, nat) -> real)
    requires n <= |sorted|
  {
    forall k :: 0 <= k < n ==> sorted[k] in a || !Good(sorted[k], a, d)
  }

  lemma SpreadMore(a: seq<Scored>, c: Scored, d: (nat, nat) -> real)
    requires Spread(a, d) && Good(c, a, d)
    ensures Spread(a + [c], d)
  {
  }

  lemma StillNotGood(x: Scored, a: seq<Scored>, c: Scored, d: (nat, nat) -> real)
    requires !Good(x, a, d)
    ensures !Good(x, a + [c], d)
  {
    var i :| 0 <= i < |a| && d(x.id, a[i].id) < x.distance;
    assert (a + [c])[i] == a[i];
  }

  lemma PassedOverMore(sorted: seq<Scored>, n: nat, a: seq<Scored>, c: Scored, d: (nat, nat) -> real)
    requires n <= |sorted| && PassedOver(sorted, n, a, d)
    ensures PassedOver(sorted, n, a + [c], d)
  {
    hide Good;
    forall k | 0 <= k < n && sorted[k] !in a
      ensures !Good(sorted[k], a + [c], d)
    {
      StillNotGood(sorted[k], a, c, d);
    }
  }

  /** What the heuristic is for: the accepted candidates are spread out, and until `m` are found nobody is passed over for another reason. */
  lemma {:induction false} HeuristicSpreads(sorted: seq<Scored>, n: nat, m: nat, d: (nat, nat) -> real)
    requires n <= |sorted|
    ensures var a := ScanTo(sorted, n, m, d).accepted; Spread(a, d) && (|a| < m ==> PassedOver(sorted, n, a, d))
  {
    hide Good, Spread;
    if n == 0 {
      assert Spread([], d) by { NothingToSpread(d); }
    } else {
      HeuristicSpreads(sorted, n - 1, m, d);
      var a, c := ScanTo(sorted, n - 1, m, d).accepted, sorted[n - 1];
      if |a| != m && Good(c, a, d) {
        SpreadMore(a, c, d);
        if |a| < m {
          PassedOverMore(sorted, n - 1, a, c, d);
        }
      }
    }
  }

  lemma NothingToSpread(d: (nat, nat) -> real)
    ensures Spread([], d)
  {
  }

  // ---------------------------------------------------------------------------------------------
  // What is selected
  // ---------------------------------------------------------------------------------------------

  /** Strictly ascending order: how the candidates are given, as their ids differ. */
  ghost predicate Ranked(s: seq<Scored>) {
    forall i, j :: 0 <= i < j < |s| ==> Less(s[i], s[j])
  }

  /** `c` is at least as close to the base as to every better one of `accepted`. */
  ghost predicate Compatible(c: Scored, accepted: seq<Scored>, d: (nat, nat) -> real) {
    forall x :: x in accepted && Less(x, c) ==> !(d(c.id, x.id) < c.distance)
  }

  /** `m` better candidates than `c` are accepted. */
  ghost predicate Crowded(c: Scored, accepted: seq<Scored>, m: nat) {
    |accepted| == m && forall x :: x in accepted ==> Less(x, c)
  }

  /** Of the candidates, exactly those are accepted that are compatible with the better accepted ones
      and come before `m` were accepted. */
  ghost predicate Accepts(sorted: seq<Scored>, m: nat, d: (nat, nat) -> real, accepted: seq<Scored>) {
    && Ranked(accepted) && |accepted| <= m && multiset(accepted) <= multiset(sorted)
    && forall c :: c in sorted ==> (c in accepted <==> Compatible(c, accepted, d) && !Crowded(c, accepted, m))
  }

  /** The selection without reference to how it is computed. Simple: the `m` best. Heuristic: the
      accepted candidates, then with `keepPruned` the best of those passed over, up to `m` in all. */
  ghost predicate Selects(sorted: seq<Scored>, m: nat, selection: Selection, keepPruned: bool,
                          d: (nat, nat) -> real, out: seq<Scored>)
  {
    if selection.Simple? then Ascending(out) && KeepsBest(multiset(out), multiset(sorted), m)
    else exists n: nat :: n <= |out| && SelectsSpread(sorted, m, keepPruned, d, out[..n], out[n..])
  }

  ghost predicate SelectsSpread(sorted: seq<Scored>, m: nat, keepPruned: bool, d: (nat, nat) -> real,
                                accepted: seq<Scored>, refill: seq<Scored>)
  {
    && Accepts(sorted, m, d, accepted)
    && if keepPruned then
         Ascending(refill) && KeepsBest(multiset(refill), multiset(sorted) - multiset(accepted), m - |accepted|)
       else refill == []
  }

  /** The accept rule and the order hold for what was scanned so far. */
  ghost predicate Scanned(sorted: seq<Scored>, n: nat, m: nat, d: (nat, nat) -> real, s: Scan)
    requires n <= |sorted|
  {
    && Ranked(s.accepted) && Ranked(s.discarded)
    && (forall c :: c in s.accepted || c in s.discarded ==> c in sorted[..n])
    && forall c :: c in sorted[..n] ==>
         (c in s.accepted <==> Compatible(c, s.accepted, d) && !Crowded(c, s.accepted, m))
  }

  lemma RankedMore(s: seq<Scored>, c: Scored)
    requires Ranked(s) && forall x :: x in s ==> Less(x, c)
    ensures Ranked(s + [c])
  {
  }

  /** A candidate behind all others changes no decision about them. */
  lemma LaterIsIrrelevant(c: Scored, a: seq<Scored>, m: nat, d: (nat, nat) -> real, last: Scored)
    requires Less(c, last)
    ensures Compatible(c, a + [last], d) == Compatible(c, a, d)
    ensures !Crowded(c, a + [last], m) && c != last
  {
    assert last in a + [last];
    forall x | x in a ensures x in a + [last] {}
  }

  lemma GoodIsCompatible(c: Scored, a: seq<Scored>, d: (nat, nat) -> real)
    requires forall x :: x in a ==> Less(x, c)
    ensures Compatible(c, a, d) == Good(c, a, d)
    ensures Compatible(c, a + [c], d) == Good(c, a, d)
    ensures c !in a
  {
    forall i | 0 <= i < |a| ensures a[i] in a && a[i] in a + [c] {
      assert (a + [c])[i] == a[i];
    }
  }

  lemma ScanStep(sorted: seq<Scored>, n: nat, m: nat, d: (nat, nat) -> real, s: Scan)
    requires n < |sorted| && Ranked(sorted) && |s.accepted| <= m && Scanned(sorted, n, m, d, s)
    ensures Scanned(sorted, n + 1, m, d, ScanOne(s, sorted[n], m, d))
  {
    hide Compatible, Crowded, Good;
    var c, a := sorted[n], s.accepted;
    var t := ScanOne(s, c, m, d);
    assert sorted[..n + 1] == sorted[..n] + [c];
    forall x | x in sorted[..n] ensures Less(x, c) {}
    GoodIsCompatible(c, a, d);
    if |a| == m {
      assert Crowded(c, a, m) by { AllBefore(c, a, m); }
    } else if Good(c, a, d) {
      RankedMore(a, c);
      forall x | x in sorted[..n] ensures x in t.accepted <==> Compatible(x, t.accepted, d) && !Crowded(x, t.accepted, m) {
        LaterIsIrrelevant(x, a, m, d, c);
        NotFull(x, a, m);
      }
      NotBeforeItself(c, a + [c], m);
    } else {
      RankedMore(s.discarded, c);
    }
  }

  lemma AllBefore(c: Scored, a: seq<Scored>, m: nat)
    requires |a| == m && forall x :: x in a ==> Less(x, c)
    ensures Crowded(c, a, m)
  {
  }

  lemma NotFull(c: Scored, a: seq<Scored>, m: nat)
    requires |a| != m
    ensures !Crowded(c, a, m)
  {
  }

  lemma NotBeforeItself(c: Scored, a: seq<Scored>, m: nat)
    requires c in a
    ensures !Crowded(c, a, m)
  {
  }

  lemma {:induction false} ScanIsScanned(sorted: seq<Scored>, n: nat, m: nat, d: (nat, nat) -> real)
    requires n <= |sorted| && Ranked(sorted)
    ensures |ScanTo(sorted, n, m, d).accepted| <= m && Scanned(sorted, n, m, d, ScanTo(sorted, n, m, d))
  {
    hide Scanned, Good;
    if n == 0 {
      NothingScanned(sorted, m, d);
    } else {
      ScanIsScanned(sorted, n - 1, m, d);
      ScanStep(sorted, n - 1, m, d, ScanTo(sorted, n - 1, m, d));
    }
  }

  lemma NothingScanned(sorted: seq<Scored>, m: nat, d: (nat, nat) -> real)
    ensures Scanned(sorted, 0, m, d, Scan([], []))
  {
  }

  /** The selection computed from ranked candidates is the one described. */
  lemma SelectedIsDescribed(sorted: seq<Scored>, m: nat, selection: Selection, keepPruned: bool,
                            d: (nat, nat) -> real)
    requires Ranked(sorted)
    ensures Selects(sorted, m, selection, keepPruned, d, Selected(sorted, m, selection, keepPruned, d))
  {
    hide ScanTo, KeepsBest, Ascending, Ranked, Parts, Accepts;
    RankedAscends(sorted);
    if selection.Simple? {
      FirstAreBest(sorted, m);
    } else {
      var s := ScanTo(sorted, |sorted|, m, d);
      ScanIsScanned(sorted, |sorted|, m, d);
      WholeScan(sorted, m, d);
      assert sorted[..|sorted|] == sorted;
      var room := m - |s.accepted|;
      var refill := if keepPruned then s.discarded[..Min(|s.discarded|, room)] else [];
      ScanAccepts(sorted, m, d, s);
      if keepPruned { RefillIsBest(sorted, m, s); }
      JoinSelects(sorted, m, keepPruned, d, s.accepted, refill);
      assert s.accepted + [] == s.accepted;
    }
  }

  lemma JoinSelects(sorted: seq<Scored>, m: nat, keepPruned: bool, d: (nat, nat) -> real,
                    accepted: seq<Scored>, refill: seq<Scored>)
    requires SelectsSpread(sorted, m, keepPruned, d, accepted, refill)
    ensures Selects(sorted, m, Heuristic, keepPruned, d, accepted + refill)
  {
    hide SelectsSpread;
    var out := accepted + refill;
    assert out[..|accepted|] == accepted && out[|accepted|..] == refill;
  }

  lemma RankedAscends(s: seq<Scored>)
    requires Ranked(s)
    ensures Ascending(s)
  {
  }

  lemma ScanAccepts(sorted: seq<Scored>, m: nat, d: (nat, nat) -> real, s: Scan)
    requires Scanned(sorted, |sorted|, m, d, s) && Parts(s.accepted, s.discarded, sorted, m)
    ensures Accepts(sorted, m, d, s.accepted)
  {
    hide Compatible, Crowded, Less;
    assert sorted[..|sorted|] == sorted;
  }

  lemma RefillIsBest(sorted: seq<Scored>, m: nat, s: Scan)
    requires Ranked(s.discarded) && Parts(s.accepted, s.discarded, sorted, m)
    ensures var refill := s.discarded[..Min(|s.discarded|, m - |s.accepted|)];
      Ascending(refill) && KeepsBest(multiset(refill), multiset(sorted) - multiset(s.accepted), m - |s.accepted|)
  {
    hide KeepsBest, Ascending, Ranked, Less;
    RankedAscends(s.discarded);
    FirstAreBest(s.discarded, m - |s.accepted|);
    if |s.accepted| == m {
      BestNone(multiset(sorted) - multiset(s.accepted));
      assert s.discarded[..0] == [];
    } else {
      assert multiset(sorted) - multiset(s.accepted) == multiset(s.discarded);
    }
  }

  lemma BestNone(all: multiset<Scored>)
    ensures KeepsBest(multiset{}, all, 0)
  {
  }

  /** Two selections by the accept rule decide alike on every candidate. */
  lemma {:induction false} AcceptsAlike(sorted: seq<Scored>, n: nat, m: nat, d: (nat, nat) -> real,
                                        a: seq<Scored>, b: seq<Scored>)
    requires n <= |sorted| && Ranked(sorted)
    requires Accepts(sorted, m, d, a) && Accepts(sorted, m, d, b)
    ensures forall k :: 0 <= k < n ==> (sorted[k] in a <==> sorted[k] in b)
    decreases n
  {
    if n > 0 {
      AcceptsAlike(sorted, n - 1, m, d, a, b);
      AcceptsNext(sorted, n - 1, m, d, a, b);
    }
  }

  lemma AcceptsNext(sorted: seq<Scored>, n: nat, m: nat, d: (nat, nat) -> real, a: seq<Scored>, b: seq<Scored>)
    requires n < |sorted| && Ranked(sorted)
    requires Accepts(sorted, m, d, a) && Accepts(sorted, m, d, b)
    requires forall k :: 0 <= k < n ==> (sorted[k] in a <==> sorted[k] in b)
    ensures sorted[n] in a <==> sorted[n] in b
  {
    var c := sorted[n];
    BetterAlike(sorted, n, a, b);
    BetterAlike(sorted, n, b, a);
    if Crowded(c, a, m) { CrowdedAlike(c, m, a, b); }
    if Crowded(c, b, m) { CrowdedAlike(c, m, b, a); }
  }

  lemma BetterAlike(sorted: seq<Scored>, n: nat, a: seq<Scored>, b: seq<Scored>)
    requires n < |sorted| && Ranked(sorted) && multiset(a) <= multiset(sorted)
    requires forall k :: 0 <= k < n ==> (sorted[k] in a <==> sorted[k] in b)
    ensures forall x :: x in a && Less(x, sorted[n]) ==> x in b
  {
    forall x | x in a && Less(x, sorted[n]) ensures x in b {
      assert x in multiset(a) && x in multiset(sorted);
      var k :| 0 <= k < |sorted| && sorted[k] == x;
    }
  }

  /** If the `m` accepted of one selection are all accepted by another of at most `m`, they are the same. */
  lemma CrowdedAlike(c: Scored, m: nat, a: seq<Scored>, b: seq<Scored>)
    requires Crowded(c, a, m) && Ranked(a) && Ranked(b) && |b| <= m
    requires forall x :: x in a && Less(x, c) ==> x in b
    ensures Crowded(c, b, m)
  {
    RankedContent(a);
    RankedContent(b);
    forall x ensures multiset(a)[x] <= multiset(b)[x] {}
    assert |multiset(a)| == |multiset(b)| by { SubSize(multiset(a), multiset(b)); }
    NoneLeftOut(multiset(a), multiset(b));
    forall x | x in b ensures x in a {
      assert x in multiset(b);
    }
  }

  lemma SubSize(a: multiset<Scored>, b: multiset<Scored>)
    requires a <= b
    ensures |a| <= |b|
  {
    assert b == a + (b - a);
  }

  lemma RankedContent(s: seq<Scored>)
    requires Ranked(s)
    ensures forall x :: multiset(s)[x] == if x in s then 1 else 0
  {
    forall x ensures multiset(s)[x] == if x in s then 1 else 0 {
      if x in s {
        var k :| 0 <= k < |s| && s[k] == x;
        Once(s, k);
      }
    }
  }

  /** The description fixes the selection. */
  lemma SelectionUnique(sorted: seq<Scored>, m: nat, selection: Selection, keepPruned: bool, d: (nat, nat) -> real,
                        p: seq<Scored>, q: seq<Scored>)
    requires Ranked(sorted)
    requires Selects(sorted, m, selection, keepPruned, d, p) && Selects(sorted, m, selection, keepPruned, d, q)
    ensures p == q
  {
    hide KeepsBest, Ascending, SelectsSpread, Ranked;
    if selection.Simple? {
      BestUnique(multiset(p), multiset(q), multiset(sorted), m);
      AscendingUnique(p, q);
    } else {
      var i: nat :| i <= |p| && SelectsSpread(sorted, m, keepPruned, d, p[..i], p[i..]);
      var j: nat :| j <= |q| && SelectsSpread(sorted, m, keepPruned, d, q[..j], q[j..]);
      SpreadUnique(sorted, m, keepPruned, d, p[..i], p[i..], q[..j], q[j..]);
      assert p == p[..i] + p[i..] && q == q[..j] + q[j..];
    }
  }

  lemma SpreadUnique(sorted: seq<Scored>, m: nat, keepPruned: bool, d: (nat, nat) -> real,
                     a: seq<Scored>, r: seq<Scored>, b: seq<Scored>, t: seq<Scored>)
    requires Ranked(sorted)
    requires SelectsSpread(sorted, m, keepPruned, d, a, r) && SelectsSpread(sorted, m, keepPruned, d, b, t)
    ensures a == b && r == t
  {
    hide KeepsBest, Ascending, Ranked, Compatible, Crowded;
    AcceptedAlike(sorted, m, d, a, b);
    if keepPruned {
      BestUnique(multiset(r), multiset(t), multiset(sorted) - multiset(a), m - |a|);
      AscendingUnique(r, t);
    }
  }

  lemma AcceptedAlike(sorted: seq<Scored>, m: nat, d: (nat, nat) -> real, a: seq<Scored>, b: seq<Scored>)
    requires Ranked(sorted) && Accepts(sorted, m, d, a) && Accepts(sorted, m, d, b)
    ensures a == b
  {
    hide Ascending, Compatible, Crowded, Less;
    AcceptsAlike(sorted, |sorted|, m, d, a, b);
    RankedContent(a);
    RankedContent(b);
    forall x ensures multiset(a)[x] == multiset(b)[x] {
      InBoth(sorted, a, b, x);
      InBoth(sorted, b, a, x);
    }
    assert multiset(a) == multiset(b);
    RankedAscends(a);
    RankedAscends(b);
    AscendingUnique(a, b);
  }

  lemma InBoth(sorted: seq<Scored>, a: seq<Scored>, b: seq<Scored>, x: Scored)
    requires multiset(a) <= multiset(sorted)
    requires forall k :: 0 <= k < |sorted| ==> (sorted[k] in a <==> sorted[k] in b)
    ensures x in a ==> x in b
  {
    if x in a {
      assert x in multiset(a) && x in multiset(sorted);
      var k :| 0 <= k < |sorted| && sorted[k] == x;
    }
  }

  // ---------------------------------------------------------------------------------------------
  // Re-selection of a full list
  // ---------------------------------------------------------------------------------------------

  /** Insertion sort in the candidate buffer. */
  method InsertionSort(input: seq<Scored>) returns (s: seq<Scored>)
    ensures Ascending(s) && multiset(s) == multiset(input)
  {
    s := input;
    if s == [] { return; }
    for i := 1 to |s|
      invariant |s| == |input| && multiset(s) == multiset(input)
      invariant Ascending(s[..i])
    {
      var key := s[i];
      ghost var s0 := s;
      var j := i;
      while j > 0 && Less(key, s[j - 1])
        invariant j <= i < |s| == |s0|
        invariant s == s0[..j] + [s0[j]] + s0[j..i] + s0[i + 1..]
        invariant forall k :: j <= k < i ==> Less(key, s0[k])
      {
        s := s[j := s[j - 1]];
        j := j - 1;
      }
      s := s[j := key];
      InsertionStep(s0, s, i, j);
    }
    assert s[..|s|] == s;
  }

  /** Inserting the key after the elements it does not precede keeps the order. */
  lemma InsertionStep(s0: seq<Scored>, s: seq<Scored>, i: nat, j: nat)
    requires j <= i < |s0| && Ascending(s0[..i])
    requires s == s0[..j] + [s0[i]] + s0[j..i] + s0[i + 1..]
    requires forall k :: j <= k < i ==> Less(s0[i], s0[k])
    requires j > 0 ==> !Less(s0[i], s0[j - 1])
    ensures Ascending(s[..i + 1]) && multiset(s) == multiset(s0)
  {
    var front, back, rest := s0[..j], s0[j..i], s0[i + 1..];
    assert s0 == front + back + [s0[i]] + rest;
    assert s0[..i] == front + back && s[..i + 1] == front + [s0[i]] + back;
    InsertedAscending(front, s0[i], back);
    assert s == front + [s0[i]] + back + rest;
    SameContent(front, back, s0[i], rest);
  }

  lemma SameContent(front: seq<Scored>, back: seq<Scored>, key: Scored, rest: seq<Scored>)
    ensures multiset(front + [key] + back + rest) == multiset(front + back + [key] + rest)
  {}

  lemma InsertedAscending(front: seq<Scored>, key: Scored, back: seq<Scored>)
    requires Ascending(front + back)
    requires forall k :: 0 <= k < |back| ==> Less(key, back[k])
    requires front != [] ==> !Less(key, front[|front| - 1])
    ensures Ascending(front + [key] + back)
  {
    var s, s0 := front + [key] + back, front + back;
    var n := |front|;
    forall a, b | 0 <= a < b < |s| ensures !Less(s[b], s[a]) {
      if a < n && b == n {
        if a < n - 1 { assert !Less(s0[n - 1], s0[a]); }
      } else if a != n {
        var a0, b0 := if a < n then a else a - 1, if b < n then b else b - 1;
        assert !Less(s0[b0], s0[a0]);
      }
    }
  }

  function Ids(s: seq<Scored>): (ids: seq<nat>)
    ensures |ids| == |s| && forall i :: 0 <= i < |s| ==> ids[i] == s[i].id
  {
    seq(|s|, i requires 0 <= i < |s| => s[i].id)
  }

  /** The candidates of a re-selection: each id with its distance to the node. */
  function Measured(ids: seq<nat>, toNode: nat -> real): (all: seq<Scored>)
    ensures |all| == |ids| && forall i :: 0 <= i < |ids| ==> all[i] == Scored(toNode(ids[i]), ids[i])
  {
    seq(|ids|, i requires 0 <= i < |ids| => Scored(toNode(ids[i]), ids[i]))
  }

  /** Sorted candidates with different ids are strictly ascending. */
  lemma SortedIsRanked(s: seq<Scored>, unsorted: seq<Scored>, all: seq<nat>)
    requires Ascending(s) && multiset(s) == multiset(unsorted)
    requires |unsorted| == |all| && Link.Distinct(all) && forall i :: 0 <= i < |all| ==> unsorted[i].id == all[i]
    ensures Ranked(s)
  {
    hide Link.Distinct;
    ChosenDistinct(unsorted, all, s);
    RankedByIds(s);
  }

  lemma RankedByIds(s: seq<Scored>)
    requires Ascending(s) && Link.Distinct(Ids(s))
    ensures Ranked(s)
  {
    forall i, j | 0 <= i < j < |s| ensures Less(s[i], s[j]) {
      assert !Less(s[j], s[i]) && Ids(s)[i] != Ids(s)[j];
    }
  }

  /** `shrink_with` on the ids of a full list: the ids of the selection from the ranked candidates, and
      whether `newId` was kept. */
  method ShrinkWith(cfg: Link.Config, list: Link.List, lvl: nat, newId: nat, toNode: nat -> real,
                    selection: Selection, keepPruned: bool, d: (nat, nat) -> real)
    returns (ids: seq<nat>, kept: bool, ghost ranked: seq<Scored>, ghost chosen: seq<Scored>)
    requires list.count <= |list.slots| && Link.Distinct(list.slots[..list.count] + [newId])
    ensures Link.Reselection(cfg, list, newId, lvl, ids)
    ensures Ranked(ranked)
    ensures multiset(ranked) == multiset(Measured(list.slots[..list.count] + [newId], toNode))
    ensures Selects(ranked, Link.Capacity(cfg, lvl), selection, keepPruned, d, chosen)
    ensures ids == Ids(chosen)
    ensures kept <==> newId in ids
    ensures |ids| == Link.Capacity(cfg, lvl) || (selection.Heuristic? && !keepPruned) || |ids| == list.count + 1
  {
    hide Selected, Ascending, Ranked, Selects, Link.Distinct, Link.Reselection, Link.Capacity;
    var candidates := [];
    var all := list.slots[..list.count] + [newId];
    for i := 0 to list.count
      invariant |candidates| == i
      invariant forall j :: 0 <= j < i ==> candidates[j] == Scored(toNode(all[j]), all[j])
    {
      candidates := candidates + [Scored(toNode(list.slots[i]), list.slots[i])];
    }
    candidates := candidates + [Scored(toNode(newId), newId)];
    assert candidates == Measured(all, toNode);
    candidates := InsertionSort(candidates);
    SortedIsRanked(candidates, Measured(all, toNode), all);
    ranked := candidates;
    var selected := SelectNeighbors(candidates, Link.Capacity(cfg, lvl), selection, keepPruned, d);
    SelectionBounds(candidates, Link.Capacity(cfg, lvl), selection, keepPruned, d);
    SameSize(candidates, Measured(all, toNode));
    ids := Ids(selected);
    kept := exists s :: s in selected && s.id == newId;
    chosen := selected;
    ChosenIsReselection(cfg, list, newId, lvl, toNode, selected);
    KeptIff(selected, newId);
  }

  lemma SameSize(a: seq<Scored>, b: seq<Scored>)
    requires multiset(a) == multiset(b)
    ensures |a| == |b|
  {
    assert |multiset(a)| == |a| && |multiset(b)| == |b|;
  }

  lemma KeptIff(chosen: seq<Scored>, newId: nat)
    ensures newId in Ids(chosen) <==> exists s :: s in chosen && s.id == newId
  {
    if newId in Ids(chosen) {
      var i :| 0 <= i < |chosen| && Ids(chosen)[i] == newId;
      assert chosen[i] in chosen;
    }
    if s :| s in chosen && s.id == newId {
      var i :| 0 <= i < |chosen| && chosen[i] == s;
      assert Ids(chosen)[i] == newId;
    }
  }

  lemma ChosenIsReselection(cfg: Link.Config, list: Link.List, newId: nat, lvl: nat, toNode: nat -> real,
                            chosen: seq<Scored>)
    requires list.count <= |list.slots| && Link.Distinct(list.slots[..list.count] + [newId])
    requires multiset(chosen) <= multiset(Measured(list.slots[..list.count] + [newId], toNode))
    requires |chosen| <= Link.Capacity(cfg, lvl)
    ensures Link.Reselection(cfg, list, newId, lvl, Ids(chosen))
  {
    hide Link.Distinct, Link.Capacity;
    var all := list.slots[..list.count] + [newId];
    ChosenDistinct(Measured(all, toNode), all, chosen);
    forall i | 0 <= i < |chosen| ensures Ids(chosen)[i] == newId || Ids(chosen)[i] in list.slots[..list.count] {
      assert chosen[i] in multiset(chosen) && chosen[i] in multiset(Measured(all, toNode));
      var j :| 0 <= j < |all| && Measured(all, toNode)[j] == chosen[i];
      assert j < list.count ==> all[j] == list.slots[..list.count][j];
    }
  }

  /** A sub-multiset of candidates with different ids has different ids. */
  lemma ChosenDistinct(unsorted: seq<Scored>, all: seq<nat>, chosen: seq<Scored>)
    requires |unsorted| == |all| && Link.Distinct(all)
    requires forall i :: 0 <= i < |all| ==> unsorted[i].id == all[i]
    requires multiset(chosen) <= multiset(unsorted)
    ensures Link.Distinct(Ids(chosen))
  {
    forall i, j | 0 <= i < j < |chosen| ensures chosen[i].id != chosen[j].id {
      assert chosen[i] in multiset(unsorted) && chosen[j] in multiset(unsorted);
      var a :| 0 <= a < |unsorted| && unsorted[a] == chosen[i];
      var b :| 0 <= b < |unsorted| && unsorted[b] == chosen[j];
      if chosen[i].id == chosen[j].id {
        assert a == b;
        Twice(chosen, i, j);
        Once(unsorted, a);
      }
    }
  }

  lemma Twice(s: seq<Scored>, i: nat, j: nat)
    requires i < j < |s| && s[i] == s[j]
    ensures multiset(s)[s[i]] >= 2
  {
    assert s == s[..i] + [s[i]] + s[i + 1..j] + [s[j]] + s[j + 1..];
  }

  lemma Once(s: seq<Scored>, a: nat)
    requires a < |s| && forall i :: 0 <= i < |s| && i != a ==> s[i] != s[a]
    ensures multiset(s)[s[a]] == 1
  {
    assert s == s[..a] + [s[a]] + s[a + 1..];
    assert s[a] !in s[..a] && s[a] !in s[a + 1..];
  }
}
