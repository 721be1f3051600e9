/** The sort-and-sweep that decides whether the regions of a file overlap and whether everything else is zero. */
module Regions {
  import opened LittleEndian

  datatype Region = Region(begin: nat, end: nat)

  predicate Apart(r: Region, s: Region) {
    r.end <= s.begin || s.end <= r.begin
  }

  predicate WithinFile(file: seq<Byte>, r: Region) {
    r.begin <= r.end <= |file|
  }

  predicate Covers(r: Region, x: nat) {
    r.begin <= x < r.end
  }

  predicate Covered(rs: seq<Region>, x: nat) {
    exists r <- rs :: Covers(r, x)
  }

  predicate AllApart(rs: seq<Region>) {
    forall i: nat, j: nat :: i < j < |rs| ==> Apart(rs[i], rs[j])
  }

  predicate RestIsZero(file: seq<Byte>, rs: seq<Region>) {
    forall x: nat :: x < |file| ==> Covered(rs, x) || file[x] == 0
  }

  // ----- sorting -----

  predicate Before(r: Region, s: Region) {
    r.begin < s.begin || (r.begin == s.begin && r.end <= s.end)
  }

  predicate Sorted(rs: seq<Region>) {
    forall i: nat, j: nat :: i < j < |rs| ==> Before(rs[i], rs[j])
  }

  predicate ApartFromAll(r: Region, rs: seq<Region>) {
    forall s <- rs :: Apart(r, s)
  }

  function Insert(r: Region, rs: seq<Region>): seq<Region> {
    if rs == [] || Before(r, rs[0]) then [r] + rs else [rs[0]] + Insert(r, rs[1..])
  }

  function Sort(rs: seq<Region>): seq<Region> {
    if rs == [] then [] else Insert(rs[0], Sort(rs[1..]))
  }

  lemma {:induction false} InsertMembers(r: Region, rs: seq<Region>, s: Region)
    ensures s in Insert(r, rs) <==> s == r || s in rs
  {
    if rs == [] || Before(r, rs[0]) {
    } else {
      InsertMembers(r, rs[1..], s);
      assert rs == [rs[0]] + rs[1..];
    }
  }

  lemma {:induction false} InsertSorted(r: Region, rs: seq<Region>)
    requires Sorted(rs)
    ensures Sorted(Insert(r, rs))
  {
    if rs == [] || Before(r, rs[0]) {
    } else {
      var rest := Insert(r, rs[1..]);
      InsertSorted(r, rs[1..]);
      forall i: nat | i < |rest|
        ensures Before(rs[0], rest[i])
      {
        InsertMembers(r, rs[1..], rest[i]);
      }
    }
  }

  lemma ApartHead(r: Region, rs: seq<Region>)
    ensures AllApart([r] + rs) <==> ApartFromAll(r, rs) && AllApart(rs)
  {
    var all := [r] + rs;
    if AllApart(all) {
      forall s <- rs
        ensures Apart(r, s)
      {
        var k: nat :| k < |rs| && rs[k] == s;
        assert Apart(all[0], all[k + 1]);
      }
      forall i: nat, j: nat | i < j < |rs|
        ensures Apart(rs[i], rs[j])
      {
        assert Apart(all[i + 1], all[j + 1]);
      }
    }
  }

  lemma {:induction false} InsertApart(r: Region, rs: seq<Region>)
    ensures AllApart(Insert(r, rs)) <==> ApartFromAll(r, rs) && AllApart(rs)
  {
    if rs == [] || Before(r, rs[0]) {
      ApartHead(r, rs);
    } else {
      var rest := Insert(r, rs[1..]);
      InsertApart(r, rs[1..]);
      ApartHead(rs[0], rest);
      ApartHead(rs[0], rs[1..]);
      assert rs == [rs[0]] + rs[1..];
      InsertFromAll(r, rs[1..], rs[0]);
      FromAllHead(r, rs[0], rs[1..]);
    }
  }

  lemma FromAllHead(r: Region, q: Region, rs: seq<Region>)
    ensures ApartFromAll(r, [q] + rs) <==> Apart(r, q) && ApartFromAll(r, rs)
  {
    var all := [q] + rs;
    assert q in all && forall s <- rs :: s in all;
  }

  lemma InsertFromAll(r: Region, rs: seq<Region>, q: Region)
    ensures ApartFromAll(q, Insert(r, rs)) <==> Apart(q, r) && ApartFromAll(q, rs)
  {
    forall s
      ensures s in Insert(r, rs) <==> s == r || s in rs
    {
      InsertMembers(r, rs, s);
    }
  }

  /** Sorting changes neither which regions there are nor whether they are apart. */
  lemma {:induction false} SortKeeps(rs: seq<Region>)
    ensures Sorted(Sort(rs)) && |Sort(rs)| == |rs| && (AllApart(Sort(rs)) <==> AllApart(rs))
    ensures forall s :: s in Sort(rs) <==> s in rs
  {
    if rs != [] {
      var rest := Sort(rs[1..]);
      SortKeeps(rs[1..]);
      assert rs == [rs[0]] + rs[1..];
      InsertSorted(rs[0], rest);
      InsertApart(rs[0], rest);
      ApartHead(rs[0], rs[1..]);
      InsertLength(rs[0], rest);
      forall s
        ensures s in Sort(rs) <==> s in rs
      {
        InsertMembers(rs[0], rest, s);
      }
    }
  }

  lemma {:induction false} InsertLength(r: Region, rs: seq<Region>)
    ensures |Insert(r, rs)| == |rs| + 1
  {
    if rs == [] || Before(r, rs[0]) {
    } else {
      InsertLength(r, rs[1..]);
    }
  }

  // ----- the sweep -----

  predicate ZeroBetween(file: seq<Byte>, from: nat, to: nat) {
    forall x: nat :: from <= x < to && x < |file| ==> file[x] == 0
  }

  method AllZero(file: seq<Byte>, from: nat, to: nat) returns (zero: bool)
    requires from <= to <= |file|
    ensures zero <==> ZeroBetween(file, from, to)
  {
    var x := from;
    while x < to
      invariant from <= x <= to && ZeroBetween(file, from, x)
    {
      if file[x] != 0 {
        return false;
      }
      x := x + 1;
    }
    zero := true;
  }

  /** Sorted regions that are apart end before the next one begins. */
  lemma SortedApart(rs: seq<Region>, i: nat, j: nat)
    requires Sorted(rs) && AllApart(rs) && i < j < |rs| && rs[i].begin <= rs[i].end && rs[j].begin <= rs[j].end
    ensures rs[i].end <= rs[j].begin
  {
    assert Before(rs[i], rs[j]) && Apart(rs[i], rs[j]);
  }

  /** What the sweep knows after `i` regions: they are apart, `covered` is their end, and all gaps before it are zero. */
  ghost predicate Swept(file: seq<Byte>, rs: seq<Region>, i: nat, covered: nat)
    requires i <= |rs|
  {
    && (forall k: nat :: k < i ==> rs[k].end <= covered)
    && AllApart(rs[..i])
    && (forall x: nat :: x < covered && x < |file| ==> Covered(rs[..i], x) || file[x] == 0)
  }

  lemma CoveredMore(rs: seq<Region>, i: nat, x: nat)
    requires i < |rs|
    ensures Covered(rs[..i + 1], x) <==> Covered(rs[..i], x) || Covers(rs[i], x)
  {
    assert rs[..i + 1] == rs[..i] + [rs[i]];
    if Covers(rs[i], x) {
      assert rs[i] in rs[..i + 1];
    }
    if Covered(rs[..i], x) {
      var r :| r in rs[..i] && Covers(r, x);
      assert r in rs[..i + 1];
    }
  }

  lemma SweepNext(file: seq<Byte>, rs: seq<Region>, i: nat, covered: nat)
    requires i < |rs| && Swept(file, rs, i, covered) && covered <= rs[i].begin <= rs[i].end
    requires ZeroBetween(file, covered, rs[i].begin)
    ensures Swept(file, rs, i + 1, rs[i].end)
  {
    var next := rs[..i + 1];
    forall j: nat, k: nat | j < k < |next|
      ensures Apart(next[j], next[k])
    {
      if k < i {
        assert Apart(rs[..i][j], rs[..i][k]);
      }
    }
    forall x: nat | x < rs[i].end && x < |file|
      ensures Covered(next, x) || file[x] == 0
    {
      CoveredMore(rs, i, x);
    }
  }

  /** A byte in a gap is covered by no region at all. */
  lemma GapIsUncovered(rs: seq<Region>, i: nat, covered: nat, x: nat)
    requires i <= |rs| && Sorted(rs) && (forall k: nat :: k < i ==> rs[k].end <= covered)
    requires covered <= x && (i < |rs| ==> x < rs[i].begin)
    ensures !Covered(rs, x)
  {
    forall k: nat | k < |rs|
      ensures !Covers(rs[k], x)
    {
      if i < k {
        assert Before(rs[i], rs[k]);
      }
    }
  }

  /** Accepts exactly the files whose regions are pairwise apart and zero everywhere else. */
  method CheckRegions(file: seq<Byte>, regions: seq<Region>) returns (ok: bool)
    requires forall r <- regions :: WithinFile(file, r)
    ensures ok <==> AllApart(regions) && RestIsZero(file, regions)
  {
    var rs := Sort(regions);
    SortKeeps(regions);
    SameCover(file, regions, rs);
    var covered: nat, i: nat := 0, 0;
    while i < |rs|
      invariant i <= |rs| && covered <= |file|
      invariant Swept(file, rs, i, covered)
      invariant covered == 0 || exists k: nat :: k < i && covered == rs[k].end
    {
      assert rs[i] in regions;
      if rs[i].begin < covered {
        var k: nat :| k < i && covered == rs[k].end;
        assert rs[k] in regions;
        if AllApart(rs) {
          SortedApart(rs, k, i);
        }
        return false;
      }
      var zero := AllZero(file, covered, rs[i].begin);
      if !zero {
        var x: nat :| covered <= x < rs[i].begin && x < |file| && file[x] != 0;
        GapIsUncovered(rs, i, covered, x);
        return false;
      }
      SweepNext(file, rs, i, covered);
      covered := rs[i].end;
      i := i + 1;
    }
    assert rs[..i] == rs;
    ok := AllZero(file, covered, |file|);
    if !ok {
      var x: nat :| covered <= x < |file| && file[x] != 0;
      GapIsUncovered(rs, i, covered, x);
    }
  }

  lemma SameCover(file: seq<Byte>, a: seq<Region>, b: seq<Region>)
    requires forall r :: r in a <==> r in b
    ensures RestIsZero(file, a) <==> RestIsZero(file, b)
  {
    forall x: nat
      ensures Covered(a, x) <==> Covered(b, x)
    {
      if Covered(a, x) {
        var r :| r in a && Covers(r, x);
        assert r in b;
      }
      if Covered(b, x) {
        var r :| r in b && Covers(r, x);
        assert r in a;
      }
    }
  }
}
