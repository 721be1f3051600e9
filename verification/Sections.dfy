/**
  * One grow-and-link section of a concurrent batch: the rows it appends, and taking back those that
  * could not be linked, over snapshots of the collection.
  */
module Sections {
  import opened Tombstones
  import opened IdMaps
  import opened Collections

  /** Row `r` was appended in this section under reservation `t`, and could still be taken back. */
  ghost predicate Grown(start: Snap, s: Snap, p: Pair, t: Reservation, r: nat) {
    && t.external == p.id
    && p.id in s.ids.entries && s.ids.entries[p.id].current == r
    && (t.previous == INVALID_ROW <==> p.id !in start.ids.entries)
    && (p.id in start.ids.entries ==> t.previous == start.ids.entries[p.id].current && t.previous in s.marks)
  }

  ghost predicate AllGrown(start: Snap, s: Snap, ps: seq<Pair>, ts: seq<Reservation>, from: nat)
    requires |ps| == |ts|
  {
    forall j: nat | from <= j < |ps| :: Grown(start, s, ps[j], ts[j], |start.rows| + j)
  }

  ghost predicate Extends(start: Snap, s: Snap) {
    && start.rows <= s.rows && start.ids.labels <= s.ids.labels && start.linked <= s.linked
  }

  /** A key's mapping changed only if it now maps to a row of this section. */
  ghost predicate OnlyNewRows(start: Snap, s: Snap) {
    forall k: ExternalId ::
      || (k in s.ids.entries && s.ids.entries[k].current >= |start.rows|)
      || ((k in s.ids.entries <==> k in start.ids.entries)
          && (k in s.ids.entries ==> s.ids.entries[k] == start.ids.entries[k]))
  }

  /** The growing phase so far has appended `ps` under the reservations `ts`. */
  ghost predicate Growing(start: Snap, s: Snap, ps: seq<Pair>, ts: seq<Reservation>) {
    && Good(start) && Good(s) && Extends(start, s) && s.linked == start.linked
    && Unlinked(s) == Unlinked(start) + IdsOf(ps)
    && |ps| == |ts| && |s.rows| == |start.rows| + |ps| <= INVALID_ROW
    && AllGrown(start, s, ps, ts, 0) && OnlyNewRows(start, s)
    && start.marks <= s.marks
    && Records(s) == Put(Records(start), ps)
  }

  lemma NothingGrown(start: Snap)
    requires Good(start)
    ensures Growing(start, start, [], [])
  {
  }

  lemma RowLabel(s: Snap, k: ExternalId)
    requires Good(s) && k in s.ids.entries
    ensures var r := s.ids.entries[k].current; r < |s.ids.labels| && s.ids.labels[r] == k
  {
  }

  /** The next id of a batch without repetitions has the mapping it had when the section began. */
  lemma FreshKey(start: Snap, s: Snap, ps: seq<Pair>, ts: seq<Reservation>, k: ExternalId)
    requires Growing(start, s, ps, ts) && forall q <- ps :: q.id != k
    ensures k in s.ids.entries <==> k in start.ids.entries
    ensures k in s.ids.entries ==> s.ids.entries[k] == start.ids.entries[k]
  {
    hide Consistent, Put, View, Records, MapsLiveRows;
    if k in s.ids.entries && s.ids.entries[k].current >= |start.rows| {
      var r := s.ids.entries[k].current;
      var j := r - |start.rows|;
      RowLabel(s, k);
      LabelsMatch(s);
      assert Grown(start, s, ps[j], ts[j], r);
      RowLabel(s, ps[j].id);
    }
  }

  lemma StillGrown(start: Snap, s: Snap, p: Pair, t: Reservation, r: nat, q: Pair)
    requires Grown(start, s, p, t, r) && p.id != q.id
    ensures Grown(start, AfterInsert(s, q.id, q.row, true), p, t, r)
  {
  }

  lemma NewlyGrown(start: Snap, s: Snap, q: Pair)
    requires Good(start)
    requires q.id in s.ids.entries <==> q.id in start.ids.entries
    requires q.id in s.ids.entries ==> s.ids.entries[q.id] == start.ids.entries[q.id]
    ensures Grown(start, AfterInsert(s, q.id, q.row, true), q, Ticket(s.ids, q.id), |s.rows|)
  {
  }

  lemma LabelsMatch(s: Snap)
    requires Good(s)
    ensures |s.ids.labels| == |s.rows|
  {
  }

  lemma GrowStep(start: Snap, s: Snap, ps: seq<Pair>, ts: seq<Reservation>, q: Pair, upsert: bool)
    requires Growing(start, s, ps, ts) && DistinctIds(ps + [q]) && |s.rows| < INVALID_ROW
    requires Reservable(s.ids, q.id, upsert)
    ensures Growing(start, AfterInsert(s, q.id, q.row, true), ps + [q], ts + [Ticket(s.ids, q.id)])
  {
    hide Good, Records, Grown, OnlyNewRows, Sound, Unlinked;
    var ps', ts', s' := ps + [q], ts + [Ticket(s.ids, q.id)], AfterInsert(s, q.id, q.row, true);
    forall j | 0 <= j < |ps|
      ensures ps[j].id != q.id
    {
      assert ps'[j] == ps[j] && ps'[|ps|] == q;
    }
    InsertRefines(s, q.id, q.row, true, upsert);
    InsertUnlinked(s, q.id, q.row, true);
    assert IdsOf(ps') == IdsOf(ps) + {q.id};
    FreshKey(start, s, ps, ts, q.id);
    NewlyGrown(start, s, q);
    forall j: nat | j < |ps'|
      ensures Grown(start, s', ps'[j], ts'[j], |start.rows| + j)
    {
      if j < |ps| {
        StillGrown(start, s, ps[j], ts[j], |start.rows| + j, q);
      }
    }
    OnlyNewRowsStep(start, s, q);
    assert ps'[..|ps|] == ps;
    assert |s.ids.labels| == |s.rows| by { LabelsMatch(s); }
  }

  lemma OnlyNewRowsStep(start: Snap, s: Snap, q: Pair)
    requires OnlyNewRows(start, s) && |start.rows| <= |s.rows|
    ensures OnlyNewRows(start, AfterInsert(s, q.id, q.row, true))
  {
  }

  // ----- taking back the rows that could not be linked -----

  function Zeros(n: nat): seq<bool> {
    seq(n, _ => false)
  }

  /** The rows from place `i` on whose link failed. */
  function FailedIds(ps: seq<Pair>, failed: seq<bool>, i: nat): set<ExternalId>
    requires |ps| == |failed|
  {
    set j: nat | i <= j < |ps| && failed[j] :: ps[j].id
  }

  /** The rows of the section that a search may reach. */
  function LinkedRows(first: nat, failed: seq<bool>): set<nat> {
    set j: nat | j < |failed| && !failed[j] :: first + j
  }

  /** The flags of the rows taken back so far. */
  function SoFar(failed: seq<bool>, i: nat): seq<bool>
    requires i <= |failed|
  {
    failed[..i] + Zeros(|failed| - i)
  }

  /** The first `i` rows of the section have been dealt with: `failed` ones are gone, the others stay. */
  ghost predicate Cleaning(start: Snap, s: Snap, ps: seq<Pair>, ts: seq<Reservation>, failed: seq<bool>, i: nat) {
    && Good(start) && Good(s) && Extends(start, s)
    && i <= |ps| == |ts| == |failed| && |s.rows| == |start.rows| + |ps| && DistinctIds(ps)
    && AllGrown(start, s, ps, ts, i)
    && (forall r <- s.linked :: r < |start.rows| ==> r in start.linked)
    && Unlinked(s) == Unlinked(start) - KeptIds(ps, SoFar(failed, i)) + FailedIds(ps, failed, i)
    && Records(s) == Put(Records(start), Kept(ps, SoFar(failed, i)))
  }

  /** A key of the section is unlinked after its links exactly if its link failed. */
  lemma LinkedKey(start: Snap, s: Snap, ps: seq<Pair>, ts: seq<Reservation>, failed: seq<bool>, k: ExternalId)
    requires Growing(start, s, ps, ts) && DistinctIds(ps) && |failed| == |ps|
    ensures var s' := s.(linked := s.linked + LinkedRows(|start.rows|, failed));
            k in Unlinked(s') <==> k in Unlinked(start) - IdsOf(ps) + FailedIds(ps, failed, 0)
  {
    hide Sound, Put, Records;
    var s' := s.(linked := s.linked + LinkedRows(|start.rows|, failed));
    if j :| 0 <= j < |ps| && ps[j].id == k {
      assert Grown(start, s, ps[j], ts[j], |start.rows| + j);
      assert k in IdsOf(ps);
      assert |start.rows| + j in LinkedRows(|start.rows|, failed) <==> !failed[j];
      assert k in FailedIds(ps, failed, 0) <==> failed[j];
    } else {
      assert k !in IdsOf(ps) && k !in FailedIds(ps, failed, 0);
      if k in s.ids.entries {
        FreshKey(start, s, ps, ts, k);
        OldRow(start, k);
      }
      FreshKey(start, s, ps, ts, k);
    }
  }

  lemma OldRow(s: Snap, k: ExternalId)
    requires Good(s)
    ensures k in s.ids.entries ==> s.ids.entries[k].current < |s.rows|
  {
  }

  /** Linking the rows that do not fail leads from the growing phase to the cleaning phase. */
  lemma LinkedSection(start: Snap, s: Snap, ps: seq<Pair>, ts: seq<Reservation>, failed: seq<bool>)
    requires Growing(start, s, ps, ts) && DistinctIds(ps) && |failed| == |ps|
    ensures Cleaning(start, s.(linked := s.linked + LinkedRows(|start.rows|, failed)), ps, ts, failed, 0)
  {
    hide Sound, OnlyNewRows, Unlinked;
    var s' := s.(linked := s.linked + LinkedRows(|start.rows|, failed));
    forall j: nat | j < |ps|
      ensures Grown(start, s', ps[j], ts[j], |start.rows| + j)
    {
      assert Grown(start, s, ps[j], ts[j], |start.rows| + j);
    }
    assert SoFar(failed, 0) == Zeros(|ps|);
    NothingAbandoned(ps, Zeros(|ps|));
    KeptIdsOfAll(ps);
    forall k: ExternalId
      ensures k in Unlinked(s') <==> k in Unlinked(start) - IdsOf(ps) + FailedIds(ps, failed, 0)
    {
      LinkedKey(start, s, ps, ts, failed, k);
    }
    assert Records(s') == Records(s);
  }

  lemma KeptIdsOfAll(ps: seq<Pair>)
    ensures KeptIds(ps, Zeros(|ps|)) == IdsOf(ps)
  {
    forall k | k in IdsOf(ps)
      ensures k in KeptIds(ps, Zeros(|ps|))
    {
      var j :| 0 <= j < |ps| && ps[j].id == k;
      assert !Zeros(|ps|)[j];
    }
  }

  /** A section whose links never ran leaves its rows to readers, and no search can reach them. */
  lemma LostSection(start: Snap, s: Snap, ps: seq<Pair>, ts: seq<Reservation>)
    requires Growing(start, s, ps, ts) && ps != []
    ensures Good(s) && Records(s) == Put(Records(start), ps) && Unlinked(s) == Unlinked(start) + IdsOf(ps)
    ensures !Settled(s)
  {
    hide Sound;
    SettledIff(s);
    assert ps[0].id in IdsOf(ps);
  }

  lemma KeepStep(start: Snap, s: Snap, ps: seq<Pair>, ts: seq<Reservation>, failed: seq<bool>, i: nat)
    requires i < |failed| && Cleaning(start, s, ps, ts, failed, i) && !failed[i]
    ensures Cleaning(start, s, ps, ts, failed, i + 1)
  {
    hide Sound, Put, Kept, Records, Unlinked;
    assert SoFar(failed, i) == SoFar(failed, i + 1);
    assert FailedIds(ps, failed, i) == FailedIds(ps, failed, i + 1);
  }

  lemma CanBeReverted(start: Snap, s: Snap, p: Pair, t: Reservation, r: nat)
    requires Good(start) && Good(s) && Extends(start, s) && Grown(start, s, p, t, r)
    ensures Revertible(s.ids, |s.rows|, s.marks, t, r)
    ensures t.previous != INVALID_ROW ==>
              t.previous < |start.rows| && p.id in Records(start) && s.rows[t.previous] == Records(start)[p.id]
  {
    hide Consistent;
    if t.previous != INVALID_ROW {
      RowLabel(start, p.id);
      assert LiveLabel(start.ids.labels, start.marks, t.previous, p.id);
    }
  }

  /** Whether the row that `t` replaced can be reached is what it was when the section began. */
  lemma PreviousUnlinked(start: Snap, s: Snap, p: Pair, t: Reservation, r: nat)
    requires Good(start) && Grown(start, s, p, t, r) && start.linked <= s.linked
    requires forall q <- s.linked :: q < |start.rows| ==> q in start.linked
    ensures t.previous != INVALID_ROW && t.previous !in s.linked <==> p.id in Unlinked(start)
  {
    OldRow(start, p.id);
  }

  /** Taking back row `i` unmarks its id among the rows kept and among the failed ones still there. */
  lemma FlagsStep(ps: seq<Pair>, failed: seq<bool>, i: nat)
    requires i < |ps| == |failed| && failed[i] && DistinctIds(ps)
    ensures SoFar(failed, i)[i := true] == SoFar(failed, i + 1)
    ensures KeptIds(ps, SoFar(failed, i + 1)) == KeptIds(ps, SoFar(failed, i)) - {ps[i].id}
    ensures FailedIds(ps, failed, i + 1) == FailedIds(ps, failed, i) - {ps[i].id}
  {
    var a, b := SoFar(failed, i), SoFar(failed, i + 1);
    assert b == a[i := true];
    forall k | k in KeptIds(ps, a) - {ps[i].id}
      ensures k in KeptIds(ps, b)
    {
      var j: nat :| j < |ps| && !a[j] && ps[j].id == k;
      assert !b[j];
    }
    forall k | k in FailedIds(ps, failed, i) - {ps[i].id}
      ensures k in FailedIds(ps, failed, i + 1)
    {
      var j: nat :| i <= j < |ps| && failed[j] && ps[j].id == k;
      assert i + 1 <= j;
    }
  }

  lemma OtherStillGrown(start: Snap, s: Snap, p: Pair, t: Reservation, r: nat, q: Pair, u: Reservation, v: nat)
    requires Good(start) && Grown(start, s, p, t, r) && Grown(start, s, q, u, v) && p.id != q.id && v < INVALID_ROW
    requires u.previous == INVALID_ROW ==> s.ids.live > 0
    ensures Grown(start, AfterAbandon(s, u, v), p, t, r)
  {
    hide Consistent;
    if p.id in start.ids.entries && q.id in start.ids.entries {
      RowLabel(start, p.id);
      RowLabel(start, q.id);
    }
  }

  lemma DropStep(start: Snap, s: Snap, ps: seq<Pair>, ts: seq<Reservation>, failed: seq<bool>, i: nat)
    requires i < |failed| && Cleaning(start, s, ps, ts, failed, i) && failed[i]
    ensures s.ids.live > 0 && ts[i].external in s.ids.entries
    ensures |start.rows| + i < |s.rows| && Revertible(s.ids, |s.rows|, s.marks, ts[i], |start.rows| + i)
    ensures Cleaning(start, AfterAbandon(s, ts[i], |start.rows| + i), ps, ts, failed, i + 1)
  {
    hide Sound, Records, Put, Kept, Unlinked, KeptIds, FailedIds;
    var row := |start.rows| + i;
    assert Grown(start, s, ps[i], ts[i], row);
    CanBeReverted(start, s, ps[i], ts[i], row);
    AbandonRefines(s, ts[i], row);
    AbandonUnlinked(s, ts[i], row);
    PreviousUnlinked(start, s, ps[i], ts[i], row);
    var s' := AfterAbandon(s, ts[i], row);
    forall j: nat | i + 1 <= j < |ps|
      ensures Grown(start, s', ps[j], ts[j], |start.rows| + j)
    {
      assert Grown(start, s, ps[j], ts[j], |start.rows| + j);
      BelowInvalid(s);
      OtherStillGrown(start, s, ps[j], ts[j], |start.rows| + j, ps[i], ts[i], row);
    }
    FlagsStep(ps, failed, i);
    AbandonOne(Records(start), ps, SoFar(failed, i), i);
    RecordsKeys(start);
    hide Good, Grown;
  }

  lemma BelowInvalid(s: Snap)
    requires Good(s)
    ensures |s.rows| <= INVALID_ROW
  {
  }

  lemma RecordsKeys(s: Snap)
    requires Good(s)
    ensures Records(s).Keys == s.ids.entries.Keys
  {
  }

  /** After a section readers see the batch without its abandoned rows, and every row of it is linked or tombstoned. */
  lemma SectionDone(start: Snap, s: Snap, ps: seq<Pair>, ts: seq<Reservation>, failed: seq<bool>)
    requires Cleaning(start, s, ps, ts, failed, |ps|)
    ensures Good(s) && Records(s) == Put(Records(start), Kept(ps, failed))
    ensures Unlinked(s) == Unlinked(start) - KeptIds(ps, failed)
    ensures Settled(start) ==> Settled(s)
  {
    hide Sound;
    assert SoFar(failed, |ps|) == failed;
    assert FailedIds(ps, failed, |ps|) == {};
    SettledIff(start);
    SettledIff(s);
  }
}
