/**
  * The two-way mapping between external ids and row numbers, with its reserve/commit/rollback
  * protocol and the revert of a committed insert.
  */
module IdMaps {
  import opened Tombstones

  type ExternalId = x: nat | x < 0x1_0000_0000_0000_0000

  const INVALID_EXTERNAL: ExternalId := 0xFFFF_FFFF_FFFF_FFFF
  const INVALID_ROW: nat := 0xFFFF_FFFF

  /** `current` is the visible row, or INVALID_ROW while a new key is pending. */
  datatype Entry = Entry(current: nat, pending: bool)

  datatype Reservation = Reservation(external: ExternalId, previous: nat)

  datatype IdError = Reserved | AlreadyExists | NotFound
  datatype Reply<T> = Done(value: T) | Refused(error: IdError)

  /** The fields of an id map, as one value. */
  datatype Ids = Ids(entries: map<ExternalId, Entry>, labels: seq<ExternalId>, live: nat)

  predicate Visible(s: Ids, k: ExternalId) {
    k in s.entries && s.entries[k].current != INVALID_ROW
  }

  predicate Pending(s: Ids, k: ExternalId) {
    k in s.entries && s.entries[k].pending
  }

  /** What lookups can see. */
  function View(s: Ids): map<ExternalId, nat> {
    map k | k in s.entries && Visible(s, k) :: s.entries[k].current
  }

  /** No key without a row unless its insert is pending; `live` counts the visible keys. */
  ghost predicate Consistent(s: Ids) {
    && INVALID_EXTERNAL !in s.entries
    && (forall k <- s.entries :: Visible(s, k) || Pending(s, k))
    && s.live == |View(s)|
  }

  // ----- the five transitions -----

  function Reserve(s: Ids, k: ExternalId): Ids {
    s.(entries := s.entries[k := Entry(if k in s.entries then s.entries[k].current else INVALID_ROW, true)])
  }

  predicate Reservable(s: Ids, k: ExternalId, upsert: bool) {
    k != INVALID_EXTERNAL && !Pending(s, k) && (k in s.entries ==> upsert)
  }

  function Ticket(s: Ids, k: ExternalId): Reservation {
    Reservation(k, if k in s.entries then s.entries[k].current else INVALID_ROW)
  }

  /** The reservation is outstanding. */
  predicate Holds(s: Ids, t: Reservation) {
    Pending(s, t.external) && s.entries[t.external].current == t.previous
  }

  function Commit(s: Ids, t: Reservation, row: nat): Ids
    requires Holds(s, t)
  {
    Ids(s.entries[t.external := Entry(row, false)], s.labels + [t.external],
        if t.previous == INVALID_ROW then s.live + 1 else s.live)
  }

  /** A whole insert of `k` as row `row`: reserve, then commit. */
  function Inserted(s: Ids, k: ExternalId, row: nat): Ids {
    Commit(Reserve(s, k), Ticket(s, k), row)
  }

  function Rollback(s: Ids, t: Reservation): Ids
    requires Holds(s, t)
  {
    if t.previous == INVALID_ROW then s.(entries := s.entries - {t.external})
    else s.(entries := s.entries[t.external := Entry(t.previous, false)])
  }

  function Erase(s: Ids, k: ExternalId): Ids
    requires s.live > 0
  {
    s.(entries := s.entries - {k}, live := s.live - 1)
  }

  function Revert(s: Ids, t: Reservation): Ids
    requires t.external in s.entries && (t.previous == INVALID_ROW ==> s.live > 0)
  {
    if t.previous != INVALID_ROW then s.(entries := s.entries[t.external := s.entries[t.external].(current := t.previous)])
    else s.(entries := s.entries - {t.external}, live := s.live - 1)
  }

  // ----- what they mean for lookups -----

  lemma ReserveIsInvisible(s: Ids, k: ExternalId, upsert: bool)
    requires Consistent(s) && Reservable(s, k, upsert)
    ensures View(Reserve(s, k)) == View(s) && Consistent(Reserve(s, k)) && Holds(Reserve(s, k), Ticket(s, k))
    ensures forall again :: !Reservable(Reserve(s, k), k, again)
  {
    var r := Reserve(s, k);
    assert View(r) == View(s);
  }

  /** A cancelled reservation leaves no trace at all. */
  lemma RollbackUndoesReserve(s: Ids, k: ExternalId, upsert: bool)
    requires Consistent(s) && Reservable(s, k, upsert)
    ensures Rollback(Reserve(s, k), Ticket(s, k)) == s
  {
    var back := Rollback(Reserve(s, k), Ticket(s, k));
    if k in s.entries {
      assert back.entries == s.entries;
    } else {
      assert back.entries == s.entries;
    }
  }

  lemma CommitPublishes(s: Ids, t: Reservation, row: nat)
    requires Consistent(s) && Holds(s, t) && row != INVALID_ROW
    ensures View(Commit(s, t, row)) == View(s)[t.external := row]
    ensures Consistent(Commit(s, t, row)) && !Pending(Commit(s, t, row), t.external)
  {
    var c := Commit(s, t, row);
    assert View(c) == View(s)[t.external := row];
    if t.previous == INVALID_ROW {
      assert View(c).Keys == View(s).Keys + {t.external};
    } else {
      assert View(c).Keys == View(s).Keys;
    }
    SameSize(View(c));
    SameSize(View(s));
  }

  lemma EraseHides(s: Ids, k: ExternalId)
    requires Consistent(s) && Visible(s, k)
    ensures s.live > 0
    ensures View(Erase(s, k)) == View(s) - {k} && Consistent(Erase(s, k))
  {
    assert k in View(s);
    var e := Erase(s, k);
    assert View(e) == View(s) - {k};
    assert View(e).Keys == View(s).Keys - {k};
    SameSize(View(e));
    SameSize(View(s));
  }

  lemma SameSize(m: map<ExternalId, nat>)
    ensures |m| == |m.Keys|
  {
  }

  /** Reverting a commit brings back the lookups there were before the reservation; only the row's label stays. */
  lemma RevertUndoesInsert(s: Ids, k: ExternalId, upsert: bool, row: nat)
    requires Consistent(s) && Reservable(s, k, upsert) && row != INVALID_ROW
    ensures var c := Inserted(s, k, row);
            && (k !in s.entries ==> c.live > 0)
            && Revert(c, Ticket(s, k)) == s.(labels := s.labels + [k])
  {
    var t := Ticket(s, k);
    var c := Inserted(s, k, row);
    if k in s.entries {
      assert Revert(c, t).entries == s.entries;
    } else {
      assert Revert(c, t).entries == s.entries;
    }
  }

  /** The whole insert as one lookup change: what `commit` hands back is the row it replaced. */
  lemma InsertReplaces(s: Ids, k: ExternalId, upsert: bool, row: nat)
    requires Consistent(s) && Reservable(s, k, upsert) && row != INVALID_ROW
    ensures View(Inserted(s, k, row)) == View(s)[k := row]
    ensures Ticket(s, k).previous == if k in View(s) then View(s)[k] else INVALID_ROW
  {
    ReserveIsInvisible(s, k, upsert);
    CommitPublishes(Reserve(s, k), Ticket(s, k), row);
  }

  // ----- persisted state -----

  /** Row `r` is live and carries label `k`. */
  predicate LiveLabel(labels: seq<ExternalId>, deleted: set<nat>, r: nat, k: ExternalId) {
    r < |labels| && r !in deleted && labels[r] == k
  }

  /** The labels of live rows below `n` are distinct and not the reserved one. */
  ghost predicate Restorable(labels: seq<ExternalId>, deleted: set<nat>, n: nat)
    requires n <= |labels|
  {
    && (forall r: nat | r < n && r !in deleted :: labels[r] != INVALID_EXTERNAL)
    && (forall r: nat, q: nat | r < q < n && r !in deleted && q !in deleted :: labels[r] != labels[q])
  }

  /** `entries` maps exactly the labels of the live rows below `n`, each to its row. */
  ghost predicate MapsLiveRows(entries: map<ExternalId, Entry>, labels: seq<ExternalId>, deleted: set<nat>, n: nat)
    requires n <= |labels|
  {
    && (forall k <- entries :: !entries[k].pending && entries[k].current < n
                              && LiveLabel(labels, deleted, entries[k].current, k))
    && (forall r: nat | r < n && r !in deleted :: labels[r] in entries && entries[labels[r]].current == r)
  }

  lemma NothingMapped(labels: seq<ExternalId>, deleted: set<nat>)
    ensures Restorable(labels, deleted, 0) && MapsLiveRows(map[], labels, deleted, 0)
  {
  }

  lemma RestoreStep(entries: map<ExternalId, Entry>, labels: seq<ExternalId>, deleted: set<nat>, i: nat)
    requires i < |labels| && Restorable(labels, deleted, i) && MapsLiveRows(entries, labels, deleted, i)
    ensures i in deleted ==> Restorable(labels, deleted, i + 1) && MapsLiveRows(entries, labels, deleted, i + 1)
    ensures i !in deleted && labels[i] != INVALID_EXTERNAL && labels[i] !in entries ==>
              && Restorable(labels, deleted, i + 1)
              && MapsLiveRows(entries[labels[i] := Entry(i, false)], labels, deleted, i + 1)
    ensures i !in deleted && (labels[i] == INVALID_EXTERNAL || labels[i] in entries) ==>
              !Restorable(labels, deleted, |labels|)
  {
    if i !in deleted && labels[i] in entries {
      var q := entries[labels[i]].current;
      assert q < i && labels[q] == labels[i] && q !in deleted;
    }
  }

  lemma RestoredIsConsistent(s: Ids, deleted: set<nat>)
    requires |s.labels| <= INVALID_ROW && MapsLiveRows(s.entries, s.labels, deleted, |s.labels|)
    requires INVALID_EXTERNAL !in s.entries && s.live == |s.entries|
    ensures Consistent(s)
  {
    assert View(s).Keys == s.entries.Keys;
    SameSize(View(s));
    assert |s.entries| == |s.entries.Keys|;
  }

  /** There is only one way to map the live rows, so saving and restoring gives the mapping back. */
  lemma LiveRowsDetermineMapping(a: map<ExternalId, Entry>, b: map<ExternalId, Entry>, labels: seq<ExternalId>,
                                 deleted: set<nat>)
    requires MapsLiveRows(a, labels, deleted, |labels|) && MapsLiveRows(b, labels, deleted, |labels|)
    ensures a == b
  {
    forall k: ExternalId
      ensures k in a <==> k in b
      ensures k in a ==> a[k] == b[k]
    {
      if k in a {
        assert labels[a[k].current] == k;
      }
      if k in b {
        assert labels[b[k].current] == k;
      }
    }
  }

  class IdMap {
    var entries: map<ExternalId, Entry>
    var labels: seq<ExternalId>
    var live: nat

    ghost function State(): Ids
      reads this
    {
      Ids(entries, labels, live)
    }

    constructor ()
      ensures State() == Ids(map[], [], 0)
    {
      entries, labels, live := map[], [], 0;
    }

    method ReserveId(external: ExternalId, upsert: bool) returns (r: Reply<Reservation>)
      modifies this
      ensures r.Done? <==> old(Reservable(State(), external, upsert))
      ensures r == Refused(Reserved) <==> external == INVALID_EXTERNAL
      ensures r.Done? ==> r.value == old(Ticket(State(), external))
      ensures State() == if r.Done? then old(Reserve(State(), external)) else old(State())
    {
      if external == INVALID_EXTERNAL {
        return Refused(Reserved);
      }
      var current := INVALID_ROW;
      if external in entries {
        if entries[external].pending {
          return Refused(AlreadyExists);
        }
        if !upsert {
          return Refused(AlreadyExists);
        }
        current := entries[external].current;
      }
      entries := entries[external := Entry(current, true)];
      return Done(Reservation(external, current));
    }

    method CommitId(t: Reservation, row: nat) returns (replaced: nat)
      requires Holds(State(), t) && row == |labels|
      modifies this
      ensures State() == old(Commit(State(), t, row)) && replaced == t.previous
    {
      replaced := entries[t.external].current;
      entries := entries[t.external := Entry(row, false)];
      if replaced == INVALID_ROW {
        live := live + 1;
      }
      labels := labels + [t.external];
    }

    method RollbackId(t: Reservation)
      requires Holds(State(), t)
      modifies this
      ensures State() == old(Rollback(State(), t))
    {
      if t.previous == INVALID_ROW {
        entries := entries - {t.external};
      } else {
        entries := entries[t.external := entries[t.external].(pending := false)];
      }
    }

    method EraseId(external: ExternalId) returns (r: Reply<nat>)
      requires Consistent(State())
      modifies this
      ensures r == Refused(NotFound) <==> !old(Visible(State(), external))
      ensures r.Done? <==> old(Visible(State(), external) && !Pending(State(), external))
      ensures r.Done? ==> old(live) > 0 && r.value == old(entries)[external].current
      ensures State() == if r.Done? then old(Erase(State(), external)) else old(State())
    {
      if external !in entries || entries[external].current == INVALID_ROW {
        return Refused(NotFound);
      }
      if entries[external].pending {
        return Refused(AlreadyExists);
      }
      EraseHides(State(), external);
      var row := entries[external].current;
      entries := entries - {external};
      live := live - 1;
      return Done(row);
    }

    method RevertId(t: Reservation)
      requires t.external in entries && (t.previous == INVALID_ROW ==> live > 0)
      modifies this
      ensures State() == old(Revert(State(), t))
    {
      if t.previous != INVALID_ROW {
        entries := entries[t.external := entries[t.external].(current := t.previous)];
        return;
      }
      entries := entries - {t.external};
      live := live - 1;
    }

    method Find(external: ExternalId) returns (found: bool, row: nat)
      ensures found <==> external in View(State())
      ensures found ==> row == View(State())[external]
    {
      if external !in entries || entries[external].current == INVALID_ROW {
        return false, 0;
      }
      return true, entries[external].current;
    }

    /** Rebuilds the map from persisted labels and tombstones, or finds the first live row that cannot be mapped. */
    method Restore(stored: seq<ExternalId>, deleted: TombstoneSet) returns (ok: bool)
      requires |stored| <= INVALID_ROW
      modifies this
      ensures ok <==> Restorable(stored, deleted.Contents(), |stored|)
      ensures ok ==> labels == stored && Consistent(State())
      ensures ok ==> MapsLiveRows(entries, stored, deleted.Contents(), |stored|)
    {
      ghost var marks := deleted.Contents();
      hide View, Consistent, Restorable, MapsLiveRows, Marks;
      labels := stored;
      entries := map[];
      NothingMapped(stored, marks);
      var i: nat := 0;
      while i < |stored|
        invariant i <= |stored| && labels == stored
        invariant Restorable(stored, marks, i)
        invariant MapsLiveRows(entries, stored, marks, i)
        invariant INVALID_EXTERNAL !in entries
        invariant deleted.Contents() == marks
      {
        RestoreStep(entries, stored, marks, i);
        var dead := deleted.Test(i);
        if !dead {
          if stored[i] == INVALID_EXTERNAL || stored[i] in entries {
            return false;
          }
          entries := entries[stored[i] := Entry(i, false)];
        }
        i := i + 1;
      }
      live := |entries|;
      RestoredIsConsistent(State(), marks);
      return true;
    }
  }
}
