/**
  * A collection's state as a refined map from external ids to vectors: inserts, upserts, removals,
  * batches with a growing and a linking phase, and compaction, with failures at allocations and links.
  */
module Collections {
  import opened Tombstones
  import opened IdMaps

  /** A stored vector: validated, and normalised where the collection asks for it. */
  type Row = seq<real>

  // ----- the invariant, over values -----

  /** A row is live exactly when the map sends its label to it, and the counters add up. */
  ghost predicate Sound(s: Ids, n: nat, marks: set<nat>) {
    && |s.labels| == n <= INVALID_ROW
    && Consistent(s)
    && MapsLiveRows(s.entries, s.labels, marks, n)
    && (forall r <- marks :: r < n)
    && s.live + |marks| == n
  }

  function Replaced(t: Reservation): set<nat> {
    if t.previous == INVALID_ROW then {} else {t.previous}
  }

  lemma MappedAfterInsert(s: Ids, n: nat, marks: set<nat>, k: ExternalId)
    requires |s.labels| == n && MapsLiveRows(s.entries, s.labels, marks, n) && n < INVALID_ROW
    requires forall r <- marks :: r < n
    ensures Replaced(Ticket(s, k)) !! marks && forall r <- Replaced(Ticket(s, k)) :: r < n
    ensures MapsLiveRows(s.entries[k := Entry(n, false)], s.labels + [k], marks + Replaced(Ticket(s, k)), n + 1)
  {
    var marks', labels' := marks + Replaced(Ticket(s, k)), s.labels + [k];
    var entries' := s.entries[k := Entry(n, false)];
    forall r: nat | r < n + 1 && r !in marks'
      ensures labels'[r] in entries' && entries'[labels'[r]].current == r
    {
      if r < n {
        assert labels'[r] == s.labels[r];
      }
    }
    forall q <- entries'
      ensures !entries'[q].pending && entries'[q].current < n + 1 && LiveLabel(labels', marks', entries'[q].current, q)
    {
      if q != k {
        var c := s.entries[q].current;
        assert entries'[q] == s.entries[q] && labels'[c] == s.labels[c] == q;
        assert c !in Replaced(Ticket(s, k));
      }
    }
  }

  lemma InsertKeepsSound(s: Ids, n: nat, marks: set<nat>, k: ExternalId, upsert: bool)
    requires Sound(s, n, marks) && Reservable(s, k, upsert) && n < INVALID_ROW
    ensures var t := Ticket(s, k);
            && Sound(Inserted(s, k, n), n + 1, marks + Replaced(t))
            && Replaced(t) !! marks
  {
    hide View, MapsLiveRows, Consistent;
    var t := Ticket(s, k);
    ReserveIsInvisible(s, k, upsert);
    CommitPublishes(Reserve(s, k), t, n);
    MappedAfterInsert(s, n, marks, k);
    var c := Inserted(s, k, n);
    assert c.entries == s.entries[k := Entry(n, false)];
    assert |marks + Replaced(t)| == |marks| + |Replaced(t)|;
  }

  lemma EraseKeepsSound(s: Ids, n: nat, marks: set<nat>, k: ExternalId)
    requires Sound(s, n, marks) && Visible(s, k)
    ensures s.live > 0 && s.entries[k].current < n && s.entries[k].current !in marks
    ensures Sound(Erase(s, k), n, marks + {s.entries[k].current})
  {
    hide View, Consistent;
    EraseHides(s, k);
    MappedAfterErase(s, n, marks, k);
    assert |marks + {s.entries[k].current}| == |marks| + 1;
    hide MapsLiveRows;
  }

  lemma MappedAfterErase(s: Ids, n: nat, marks: set<nat>, k: ExternalId)
    requires |s.labels| == n && MapsLiveRows(s.entries, s.labels, marks, n) && k in s.entries && s.live > 0
    ensures s.entries[k].current < n && s.entries[k].current !in marks
    ensures MapsLiveRows(Erase(s, k).entries, s.labels, marks + {s.entries[k].current}, n)
  {
  }

  /** The row's insert can be taken back: the key still maps to it, and what it replaced is still there. */
  ghost predicate Revertible(s: Ids, n: nat, marks: set<nat>, t: Reservation, row: nat) {
    && t.external in s.entries && s.entries[t.external].current == row
    && (t.previous != INVALID_ROW ==>
          t.previous < n && t.previous < |s.labels| && t.previous in marks && s.labels[t.previous] == t.external)
  }

  lemma MappedAfterRevert(s: Ids, n: nat, marks: set<nat>, t: Reservation, row: nat)
    requires |s.labels| == n && MapsLiveRows(s.entries, s.labels, marks, n)
    requires Revertible(s, n, marks, t, row) && (t.previous == INVALID_ROW ==> s.live > 0)
    ensures row < n && row !in marks && row !in Replaced(t)
    ensures MapsLiveRows(Revert(s, t).entries, s.labels, marks + {row} - Replaced(t), n)
  {
  }

  lemma RevertedCount(s: Ids, marks: set<nat>, t: Reservation, row: nat)
    requires Consistent(s) && Visible(s, t.external) && !Pending(s, t.external)
    requires row !in marks && row !in Replaced(t) && Replaced(t) <= marks
    ensures s.live > 0 && Consistent(Revert(s, t))
    ensures Revert(s, t).live + |marks + {row} - Replaced(t)| == s.live + |marks|
  {
    assert t.external in View(s);
    var back := Revert(s, t);
    if t.previous == INVALID_ROW {
      EraseHides(s, t.external);
      assert marks + {row} - Replaced(t) == marks + {row};
    } else {
      assert View(back).Keys == View(s).Keys;
      SameSize(View(back));
      SameSize(View(s));
      assert marks + {row} - Replaced(t) == (marks - {t.previous}) + {row};
    }
  }

  lemma RevertKeepsSound(s: Ids, n: nat, marks: set<nat>, t: Reservation, row: nat)
    requires Sound(s, n, marks) && Revertible(s, n, marks, t, row)
    ensures s.live > 0 && row < n && row !in marks && row !in Replaced(t)
    ensures Sound(Revert(s, t), n, marks + {row} - Replaced(t))
  {
    assert Visible(s, t.external) && !Pending(s, t.external) && row !in marks && row !in Replaced(t);
    RevertedCount(s, marks, t, row);
    MappedAfterRevert(s, n, marks, t, row);
    hide View, MapsLiveRows, Consistent;
  }

  // ----- snapshots and their transitions -----

  /** A collection's state between two calls: id map, stored rows, tombstones, and the rows searches may reach. */
  datatype Snap = Snap(ids: Ids, rows: seq<Row>, marks: set<nat>, linked: set<nat>)

  ghost predicate Good(s: Snap) {
    Sound(s.ids, |s.rows|, s.marks) && forall r <- s.linked :: r < |s.rows|
  }

  /** Every row below `n` is linked or tombstoned. */
  ghost predicate SettledBelow(s: Snap, n: nat) {
    forall r: nat | r < n && r !in s.marks :: r in s.linked
  }

  ghost predicate Settled(s: Snap) {
    SettledBelow(s, |s.rows|)
  }

  /** The ids whose row no search can reach. */
  ghost function Unlinked(s: Snap): set<ExternalId> {
    set k | k in s.ids.entries && s.ids.entries[k].current !in s.linked
  }

  /** Every row is linked or tombstoned exactly when every id's row is linked. */
  lemma SettledIff(s: Snap)
    requires Good(s)
    ensures Settled(s) <==> Unlinked(s) == {}
  {
    hide Consistent;
    forall k | k in s.ids.entries
      ensures s.ids.entries[k].current < |s.rows| && s.ids.entries[k].current !in s.marks
    {
      assert LiveLabel(s.ids.labels, s.marks, s.ids.entries[k].current, k);
    }
    if Unlinked(s) == {} {
      forall r: nat | r < |s.rows| && r !in s.marks
        ensures r in s.linked
      {
        assert s.ids.labels[r] !in Unlinked(s);
      }
    } else {
      var k :| k in Unlinked(s);
      assert !Settled(s);
    }
  }

  ghost predicate InRange(entries: map<ExternalId, Entry>, n: nat) {
    forall k <- entries :: entries[k].current < n
  }

  ghost function Lookup(entries: map<ExternalId, Entry>, rows: seq<Row>): map<ExternalId, Row>
    requires InRange(entries, |rows|)
  {
    map k | k in entries :: rows[entries[k].current]
  }

  /** What a reader of the collection sees. */
  ghost function Records(s: Snap): map<ExternalId, Row>
    requires Good(s)
  {
    assert InRange(s.ids.entries, |s.rows|);
    Lookup(s.ids.entries, s.rows)
  }

  lemma LookupAfterSet(entries: map<ExternalId, Entry>, rows: seq<Row>, k: ExternalId, e: Entry, extra: seq<Row>)
    requires InRange(entries, |rows|) && e.current < |rows + extra|
    ensures InRange(entries[k := e], |rows + extra|)
    ensures Lookup(entries[k := e], rows + extra) == Lookup(entries, rows)[k := (rows + extra)[e.current]]
  {
  }

  lemma LookupAfterDrop(entries: map<ExternalId, Entry>, rows: seq<Row>, k: ExternalId)
    requires InRange(entries, |rows|)
    ensures InRange(entries - {k}, |rows|)
    ensures Lookup(entries - {k}, rows) == Lookup(entries, rows) - {k}
  {
  }

  function AfterInsert(s: Snap, k: ExternalId, row: Row, reserveOnly: bool): Snap {
    Snap(Inserted(s.ids, k, |s.rows|), s.rows + [row], s.marks + Replaced(Ticket(s.ids, k)),
         s.linked + if reserveOnly then {} else {|s.rows|})
  }

  function AfterErase(s: Snap, k: ExternalId): Snap
    requires Visible(s.ids, k) && s.ids.live > 0
  {
    s.(ids := Erase(s.ids, k), marks := s.marks + {s.ids.entries[k].current})
  }

  function AfterAbandon(s: Snap, t: Reservation, row: nat): Snap
    requires t.external in s.ids.entries && (t.previous == INVALID_ROW ==> s.ids.live > 0)
  {
    s.(ids := Revert(s.ids, t), marks := s.marks + {row} - Replaced(t))
  }

  lemma InsertRefines(s: Snap, k: ExternalId, row: Row, reserveOnly: bool, upsert: bool)
    requires Good(s) && Reservable(s.ids, k, upsert) && |s.rows| < INVALID_ROW
    ensures var after := AfterInsert(s, k, row, reserveOnly);
            Good(after) && Records(after) == Records(s)[k := row]
  {
    hide Sound, Lookup, Replaced;
    InsertKeepsSound(s.ids, |s.rows|, s.marks, k, upsert);
    EntriesInRange(s);
    var e := Entry(|s.rows|, false);
    LookupAfterSet(s.ids.entries, s.rows, k, e, [row]);
    assert AfterInsert(s, k, row, reserveOnly).ids.entries == s.ids.entries[k := e];
  }

  /** The inserted id's row is the only one whose being linked changes. */
  lemma InsertUnlinked(s: Snap, k: ExternalId, row: Row, reserveOnly: bool)
    requires Good(s)
    ensures Unlinked(AfterInsert(s, k, row, reserveOnly)) == Unlinked(s) - {k} + if reserveOnly then {k} else {}
  {
    hide Sound;
    EntriesInRange(s);
    var s' := AfterInsert(s, k, row, reserveOnly);
    assert s'.ids.entries == s.ids.entries[k := Entry(|s.rows|, false)];
  }

  lemma EraseUnlinked(s: Snap, k: ExternalId)
    requires Good(s) && Visible(s.ids, k) && s.ids.live > 0
    ensures Unlinked(AfterErase(s, k)) == Unlinked(s) - {k}
  {
    hide Consistent, MapsLiveRows;
  }

  /** Taking a row back brings back the row it replaced, linked or not. */
  lemma AbandonUnlinked(s: Snap, t: Reservation, row: nat)
    requires t.external in s.ids.entries && (t.previous == INVALID_ROW ==> s.ids.live > 0)
    ensures Unlinked(AfterAbandon(s, t, row))
         == Unlinked(s) - {t.external}
            + if t.previous != INVALID_ROW && t.previous !in s.linked then {t.external} else {}
  {
  }

  /** Rows are live or tombstoned, and there is one live row for each record. */
  lemma RecordCount(s: Snap)
    requires Good(s)
    ensures |Records(s)| + |s.marks| == |s.rows|
  {
    forall k | k in s.ids.entries
      ensures Visible(s.ids, k)
    {
      assert s.ids.entries[k].current < |s.rows|;
    }
    assert View(s.ids).Keys == s.ids.entries.Keys;
    assert Records(s).Keys == s.ids.entries.Keys;
    SameSize(View(s.ids));
    assert |Records(s)| == |Records(s).Keys|;
  }

  lemma EntriesInRange(s: Snap)
    requires Good(s)
    ensures InRange(s.ids.entries, |s.rows|)
  {
  }

  lemma InsertKeepsSettled(s: Snap, k: ExternalId, row: Row)
    requires Settled(s)
    ensures Settled(AfterInsert(s, k, row, false))
  {
  }

  lemma EraseRefines(s: Snap, k: ExternalId)
    requires Good(s) && Visible(s.ids, k)
    ensures s.ids.live > 0 && k in Records(s)
    ensures Good(AfterErase(s, k)) && Records(AfterErase(s, k)) == Records(s) - {k}
    ensures Settled(s) ==> Settled(AfterErase(s, k))
  {
    hide Consistent, View;
    EraseKeepsSound(s.ids, |s.rows|, s.marks, k);
    LookupAfterDrop(s.ids.entries, s.rows, k);
  }

  lemma AbandonRefines(s: Snap, t: Reservation, row: nat)
    requires Good(s) && Revertible(s.ids, |s.rows|, s.marks, t, row)
    ensures s.ids.live > 0 && row < |s.rows| && row !in s.marks && row !in Replaced(t)
    ensures Good(AfterAbandon(s, t, row))
    ensures Records(AfterAbandon(s, t, row)) == if t.previous == INVALID_ROW then Records(s) - {t.external}
                                                else Records(s)[t.external := s.rows[t.previous]]
  {
    hide Consistent, View;
    RevertKeepsSound(s.ids, |s.rows|, s.marks, t, row);
    if t.previous == INVALID_ROW {
      LookupAfterDrop(s.ids.entries, s.rows, t.external);
    } else {
      var e := Entry(t.previous, false);
      assert s.rows + [] == s.rows;
      LookupAfterSet(s.ids.entries, s.rows, t.external, e, []);
      assert Revert(s.ids, t).entries == s.ids.entries[t.external := e];
    }
    hide MapsLiveRows, Lookup;
  }

  // ----- batches -----

  datatype Pair = Pair(id: ExternalId, row: Row)

  function IdsOf(ps: seq<Pair>): set<ExternalId> {
    set p <- ps :: p.id
  }

  /** The ids of the rows of a batch that were not abandoned. */
  function KeptIds(ps: seq<Pair>, abandoned: seq<bool>): set<ExternalId>
    requires |ps| == |abandoned|
  {
    set j: nat | j < |ps| && !abandoned[j] :: ps[j].id
  }

  function Put(m: map<ExternalId, Row>, ps: seq<Pair>): map<ExternalId, Row> {
    if ps == [] then m else Put(m, ps[..|ps| - 1])[ps[|ps| - 1].id := ps[|ps| - 1].row]
  }

  /** The rows of a batch that were not abandoned. */
  function Kept(ps: seq<Pair>, abandoned: seq<bool>): seq<Pair>
    requires |ps| == |abandoned|
  {
    if ps == [] then []
    else Kept(ps[..|ps| - 1], abandoned[..|ps| - 1]) + if abandoned[|ps| - 1] then [] else [ps[|ps| - 1]]
  }

  predicate DistinctIds(ps: seq<Pair>) {
    forall i, j :: 0 <= i < j < |ps| ==> ps[i].id != ps[j].id
  }

  lemma {:induction false} PutAppends(m: map<ExternalId, Row>, a: seq<Pair>, b: seq<Pair>)
    ensures Put(m, a + b) == Put(Put(m, a), b)
  {
    if b == [] {
      assert a + b == a;
    } else {
      assert (a + b)[..|a + b| - 1] == a + b[..|b| - 1];
      PutAppends(m, a, b[..|b| - 1]);
    }
  }

  lemma {:induction false} KeptAppends(a: seq<Pair>, fa: seq<bool>, b: seq<Pair>, fb: seq<bool>)
    requires |a| == |fa| && |b| == |fb|
    ensures Kept(a + b, fa + fb) == Kept(a, fa) + Kept(b, fb)
  {
    if b == [] {
      assert a + b == a && fa + fb == fa;
    } else {
      assert (a + b)[..|a + b| - 1] == a + b[..|b| - 1];
      assert (fa + fb)[..|a + b| - 1] == fa + fb[..|b| - 1];
      KeptAppends(a, fa, b[..|b| - 1], fb[..|b| - 1]);
    }
  }

  lemma {:induction false} OthersUntouched(m: map<ExternalId, Row>, ps: seq<Pair>, abandoned: seq<bool>, k: ExternalId)
    requires |ps| == |abandoned| && forall p <- ps :: p.id != k
    ensures var after := Put(m, Kept(ps, abandoned)); (k in after <==> k in m) && (k in m ==> after[k] == m[k])
  {
    if ps != [] {
      OthersUntouched(m, ps[..|ps| - 1], abandoned[..|ps| - 1], k);
      KeptLast(m, ps, abandoned);
    }
  }

  lemma KeptLast(m: map<ExternalId, Row>, ps: seq<Pair>, abandoned: seq<bool>)
    requires |ps| == |abandoned| > 0
    ensures var n := |ps| - 1;
            Put(m, Kept(ps, abandoned)) == if abandoned[n] then Put(m, Kept(ps[..n], abandoned[..n]))
                                           else Put(m, Kept(ps[..n], abandoned[..n]))[ps[n].id := ps[n].row]
  {
    var n := |ps| - 1;
    var front := Kept(ps[..n], abandoned[..n]);
    if abandoned[n] {
      assert Kept(ps, abandoned) == front;
    } else {
      assert Kept(ps, abandoned) == front + [ps[n]] && (front + [ps[n]])[..|front|] == front;
    }
  }

  /** Taking back one row of a batch is the same as never having put it. */
  lemma {:induction false} AbandonOne(m: map<ExternalId, Row>, ps: seq<Pair>, abandoned: seq<bool>, j: nat)
    requires |ps| == |abandoned| && j < |ps| && DistinctIds(ps) && !abandoned[j]
    ensures var k, all := ps[j].id, Put(m, Kept(ps, abandoned));
            Put(m, Kept(ps, abandoned[j := true])) == if k in m then all[k := m[k]] else all - {k}
  {
    hide Put, Kept;
    var n := |ps| - 1;
    var without := abandoned[j := true];
    KeptLast(m, ps, abandoned);
    KeptLast(m, ps, without);
    if j == n {
      assert without[..n] == abandoned[..n];
      OthersUntouched(m, ps[..n], abandoned[..n], ps[j].id);
      PutBack(m, Put(m, Kept(ps[..n], abandoned[..n])), ps[n]);
    } else {
      assert without[..n] == abandoned[..n][j := true];
      AbandonOne(m, ps[..n], abandoned[..n], j);
      PutLater(m, Put(m, Kept(ps[..n], abandoned[..n])), ps[j].id, ps[n]);
    }
  }

  lemma PutLater(m: map<ExternalId, Row>, front: map<ExternalId, Row>, k: ExternalId, p: Pair)
    requires p.id != k
    ensures k in m ==> front[k := m[k]][p.id := p.row] == front[p.id := p.row][k := m[k]]
    ensures (front - {k})[p.id := p.row] == front[p.id := p.row] - {k}
  {
  }

  lemma PutBack(m: map<ExternalId, Row>, front: map<ExternalId, Row>, p: Pair)
    requires p.id in front <==> p.id in m
    requires p.id in m ==> front[p.id] == m[p.id]
    ensures front == if p.id in m then front[p.id := p.row][p.id := m[p.id]] else front[p.id := p.row] - {p.id}
  {
  }

  lemma {:induction false} NothingAbandoned(ps: seq<Pair>, abandoned: seq<bool>)
    requires |ps| == |abandoned| && forall i :: 0 <= i < |abandoned| ==> !abandoned[i]
    ensures Kept(ps, abandoned) == ps
  {
    if ps != [] {
      NothingAbandoned(ps[..|ps| - 1], abandoned[..|ps| - 1]);
    }
  }

  // ----- compaction -----

  /** The live rows below `n`, in row order, with their labels. */
  function LivePairs(s: Snap, n: nat): seq<Pair>
    requires n <= |s.rows| && n <= |s.ids.labels|
  {
    if n == 0 then []
    else LivePairs(s, n - 1) + if n - 1 in s.marks then [] else [Pair(s.ids.labels[n - 1], s.rows[n - 1])]
  }

  ghost function RecordsBelow(s: Snap, n: nat): map<ExternalId, Row>
    requires Good(s)
  {
    map k | k in s.ids.entries && s.ids.entries[k].current < n :: Records(s)[k]
  }

  lemma RecordsBelowNext(s: Snap, n: nat)
    requires Good(s) && n < |s.rows|
    ensures RecordsBelow(s, n + 1) == if n in s.marks then RecordsBelow(s, n)
                                      else RecordsBelow(s, n)[s.ids.labels[n] := s.rows[n]]
  {
    hide Consistent, View;
    var k := s.ids.labels[n];
    if n !in s.marks {
      assert s.ids.entries[k].current == n;
    }
    forall q | q in s.ids.entries && s.ids.entries[q].current == n
      ensures q == k && n !in s.marks
    {
      assert LiveLabel(s.ids.labels, s.marks, s.ids.entries[q].current, q);
    }
  }

  /** Re-inserting the live rows in order gives back exactly what readers saw. */
  lemma {:induction false} LivePairsAreRecords(s: Snap, n: nat)
    requires Good(s) && n <= |s.rows|
    ensures Put(map[], LivePairs(s, n)) == RecordsBelow(s, n)
  {
    hide Good, Records, RecordsBelow, Put;
    SnapShape(s);
    NoneBelow(s);
    PutNone(map[]);
    if n > 0 {
      LivePairsAreRecords(s, n - 1);
      RecordsBelowNext(s, n - 1);
      if n - 1 !in s.marks {
        PutOne(map[], LivePairs(s, n - 1), Pair(s.ids.labels[n - 1], s.rows[n - 1]));
      } else {
        assert LivePairs(s, n - 1) + [] == LivePairs(s, n - 1);
      }
    }
  }

  lemma PutNone(m: map<ExternalId, Row>)
    ensures Put(m, []) == m
  {
  }

  /** The number of records below row `n`. */
  ghost function CountBelow(s: Snap, n: nat): nat
    requires Good(s)
  {
    |RecordsBelow(s, n)|
  }

  /** Live rows and records correspond one to one. */
  lemma {:induction false} LiveCount(s: Snap, n: nat)
    requires Good(s) && n <= |s.rows| && n <= |s.ids.labels|
    ensures |LivePairs(s, n)| == CountBelow(s, n) <= |Records(s)|
    ensures n < |s.rows| && n !in s.marks ==> |LivePairs(s, n)| < |Records(s)|
  {
    hide Good, Records, CountBelow;
    NoneBelow(s);
    if n > 0 {
      LiveCount(s, n - 1);
      NextRecord(s, n - 1);
    }
    BelowAll(s, n);
    if n < |s.rows| && n !in s.marks {
      NextRecord(s, n);
      BelowAll(s, n + 1);
    }
  }

  lemma NoneBelow(s: Snap)
    requires Good(s)
    ensures RecordsBelow(s, 0) == map[] && CountBelow(s, 0) == 0
  {
    assert RecordsBelow(s, 0) == map[];
  }

  lemma NextRecord(s: Snap, n: nat)
    requires Good(s) && n < |s.rows|
    ensures CountBelow(s, n + 1) == CountBelow(s, n) + if n in s.marks then 0 else 1
  {
    RecordsBelowNext(s, n);
    if n !in s.marks {
      var k := s.ids.labels[n];
      assert s.ids.entries[k].current == n;
      assert k !in RecordsBelow(s, n);
      assert RecordsBelow(s, n + 1).Keys == RecordsBelow(s, n).Keys + {k};
      assert |RecordsBelow(s, n + 1)| == |RecordsBelow(s, n + 1).Keys| && |RecordsBelow(s, n)| == |RecordsBelow(s, n).Keys|;
    }
  }

  lemma BelowAll(s: Snap, n: nat)
    requires Good(s)
    ensures CountBelow(s, n) <= |Records(s)|
  {
    EntriesAreRecords(s);
    var some, all := RecordsBelow(s, n).Keys, Records(s).Keys;
    assert some <= all && |some| + |all - some| == |all|;
    assert |RecordsBelow(s, n)| == |some| && |Records(s)| == |all|;
  }

  function LabelsOf(ps: seq<Pair>): seq<ExternalId> {
    seq(|ps|, i requires 0 <= i < |ps| => ps[i].id)
  }

  function RowsOf(ps: seq<Pair>): seq<Row> {
    seq(|ps|, i requires 0 <= i < |ps| => ps[i].row)
  }

  /** `s` holds exactly the live rows of `old` below `n`, in their order, and nothing else. */
  ghost predicate Rebuilt(was: Snap, n: nat, s: Snap)
    requires n <= |was.rows| && n <= |was.ids.labels|
  {
    && Good(s) && Settled(s) && s.marks == {}
    && s.ids.labels == LabelsOf(LivePairs(was, n)) && s.rows == RowsOf(LivePairs(was, n))
    && Records(s) == Put(map[], LivePairs(was, n))
  }

  lemma RebuildStart(was: Snap)
    ensures Rebuilt(was, 0, Snap(Ids(map[], [], 0), [], {}, {}))
  {
  }

  lemma LivePairsShort(s: Snap, n: nat)
    requires n <= |s.rows| && n <= |s.ids.labels|
    ensures |LivePairs(s, n)| <= n
  {
  }

  /** A live row's label is not yet among the rows rebuilt before it. */
  lemma LabelIsFree(was: Snap, n: nat)
    requires Good(was) && n < |was.rows| && n !in was.marks
    ensures was.ids.labels[n] != INVALID_EXTERNAL
    ensures was.ids.labels[n] !in Put(map[], LivePairs(was, n))
  {
    LivePairsAreRecords(was, n);
    hide View, Put, LivePairs;
    assert was.ids.entries[was.ids.labels[n]].current == n;
  }

  lemma RebuildStep(was: Snap, n: nat, s: Snap)
    requires Good(was) && n < |was.rows| && Rebuilt(was, n, s)
    ensures n in was.marks ==> Rebuilt(was, n + 1, s)
    ensures n !in was.marks ==> Reservable(s.ids, was.ids.labels[n], false) && |s.rows| < INVALID_ROW
    ensures n !in was.marks ==> Rebuilt(was, n + 1, AfterInsert(s, was.ids.labels[n], was.rows[n], false))
  {
    hide Sound, Settled, Put, Records;
    SnapShape(was);
    var front := LivePairs(was, n);
    LivePairsShort(was, n);
    if n in was.marks {
      assert LivePairs(was, n + 1) == front;
    } else {
      var last := Pair(was.ids.labels[n], was.rows[n]);
      assert LivePairs(was, n + 1) == front + [last];
      LabelIsFree(was, n);
      EntriesAreRecords(s);
      InsertRefines(s, last.id, last.row, false, false);
      InsertKeepsSettled(s, last.id, last.row);
      PutOne(map[], front, last);
      assert LabelsOf(front + [last]) == LabelsOf(front) + [last.id];
      assert RowsOf(front + [last]) == RowsOf(front) + [last.row];
    }
  }

  lemma SnapShape(s: Snap)
    requires Good(s)
    ensures |s.ids.labels| == |s.rows| <= INVALID_ROW
  {
  }

  lemma EntriesAreRecords(s: Snap)
    requires Good(s)
    ensures Records(s).Keys == s.ids.entries.Keys
  {
  }

  lemma PutOne(m: map<ExternalId, Row>, front: seq<Pair>, p: Pair)
    ensures Put(m, front + [p]) == Put(m, front)[p.id := p.row]
  {
    assert (front + [p])[..|front|] == front;
  }

  /** The rebuilt state shows readers what the old one did. */
  lemma RebuiltShowsTheSame(was: Snap, s: Snap)
    requires Good(was) && Rebuilt(was, |was.rows|, s)
    ensures Good(s) && Settled(s) && s.marks == {} && Records(s) == Records(was)
  {
    LivePairsAreRecords(was, |was.rows|);
    EntriesAreRecords(was);
    assert RecordsBelow(was, |was.rows|) == Records(was);
  }
}
