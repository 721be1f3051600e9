/**
  * The mutable collection: its parts, the operations on them, and failures at its allocations and links, the shared
  * block of a parallel loop among them.
  */
module CollectionStates {
  import opened Tombstones
  import opened IdMaps
  import opened Collections
  import opened Sections

  /** Where one insert fails, if it does. */
  datatype Fault = NoFault | NoCapacity | NoChunk | IndexFails

  datatype Error = InvalidArgument | DimensionMismatch | Exists | Missing | ResourceExhausted | BadAlloc
  datatype Outcome = Success | Failure(error: Error)

  ghost predicate AllOfDim(rows: seq<Row>, dim: nat) {
    forall row <- rows :: |row| == dim
  }

  class VectorStore {
    const dim: nat
    const maxRows: nat
    var rows: seq<Row>

    constructor (dim: nat, maxRows: nat)
      ensures this.dim == dim && this.maxRows == maxRows && rows == []
    {
      this.dim, this.maxRows, rows := dim, maxRows, [];
    }

    method Append(row: Row, fault: Fault) returns (o: Outcome)
      modifies this
      ensures o == if |row| != dim then Failure(DimensionMismatch)
                   else if |old(rows)| >= maxRows then Failure(ResourceExhausted)
                   else if fault == NoChunk then Failure(BadAlloc) else Success
      ensures rows == if o.Success? then old(rows) + [row] else old(rows)
    {
      if |row| != dim {
        return Failure(DimensionMismatch);
      }
      if |rows| >= maxRows {
        return Failure(ResourceExhausted);
      }
      if fault == NoChunk {
        return Failure(BadAlloc);
      }
      rows := rows + [row];
      return Success;
    }

    method PopBack()
      requires |rows| > 0
      modifies this
      ensures rows == old(rows)[..|old(rows)| - 1]
    {
      rows := rows[..|rows| - 1];
    }
  }

  /** The index as the collection sees it: its nodes are rows, and `linked` holds those a search may reach. */
  class Index {
    var nodes: nat
    var linked: set<nat>

    constructor ()
      ensures nodes == 0 && linked == {}
    {
      nodes, linked := 0, {};
    }

    /** Adds row `row` as the next node, linking it unless it is only reserved; a failure changes nothing. */
    method AddNode(row: nat, reserveOnly: bool, fault: Fault) returns (o: Outcome)
      requires row == nodes
      modifies this
      ensures o == if fault == IndexFails then Failure(BadAlloc) else Success
      ensures nodes == if o.Success? then old(nodes) + 1 else old(nodes)
      ensures linked == if o.Success? && !reserveOnly then old(linked) + {row} else old(linked)
    {
      if fault == IndexFails {
        return Failure(BadAlloc);
      }
      nodes := nodes + 1;
      if !reserveOnly {
        linked := linked + {row};
      }
      return Success;
    }

    method Link(row: nat, fails: bool) returns (ok: bool)
      requires row < nodes
      modifies this`linked
      ensures ok == !fails
      ensures linked == if ok then old(linked) + {row} else old(linked)
    {
      if fails {
        return false;
      }
      linked := linked + {row};
      return true;
    }
  }

  class CollectionState {
    const vectors: VectorStore
    const ids: IdMap
    const deleted: TombstoneSet
    const index: Index

    ghost const Repr: set<object> := {vectors, ids, deleted, index}

    ghost function Abs(): Snap
      reads vectors, ids, deleted, index
    {
      Snap(ids.State(), vectors.rows, deleted.Contents(), index.linked)
    }

    /** The parts fit together: one node and room for one tombstone per row. */
    ghost predicate Fits()
      reads vectors, deleted, index
    {
      && |vectors.rows| <= vectors.maxRows <= INVALID_ROW
      && AllOfDim(vectors.rows, vectors.dim)
      && deleted.Valid()
      && index.nodes == |vectors.rows| <= deleted.Room()
    }

    ghost predicate Valid()
      reads vectors, ids, deleted, index
    {
      Fits() && Good(Abs())
    }

    constructor (dim: nat, maxRows: nat)
      requires maxRows <= INVALID_ROW
      ensures Valid() && fresh(Repr) && Abs() == Snap(Ids(map[], [], 0), [], {}, {})
      ensures vectors.dim == dim && vectors.maxRows == maxRows
    {
      vectors := new VectorStore(dim, maxRows);
      ids := new IdMap();
      deleted := new TombstoneSet();
      index := new Index();
    }

    /** Appends a row and gives it to the index; if the index refuses, the row is popped again. */
    method AppendIndexed(row: Row, reserveOnly: bool, fault: Fault) returns (o: Outcome)
      requires index.nodes == |vectors.rows| && AllOfDim(vectors.rows, vectors.dim)
      modifies vectors, index
      ensures o.Success? <==> |row| == vectors.dim && |old(vectors.rows)| < vectors.maxRows && fault !in {NoChunk, IndexFails}
      ensures vectors.rows == if o.Success? then old(vectors.rows) + [row] else old(vectors.rows)
      ensures index.nodes == |vectors.rows| && AllOfDim(vectors.rows, vectors.dim)
      ensures index.linked == if o.Success? && !reserveOnly then old(index.linked) + {|old(vectors.rows)|} else old(index.linked)
    {
      o := vectors.Append(row, fault);
      if o.Failure? {
        return o;
      }
      o := index.AddNode(|vectors.rows| - 1, reserveOnly, fault);
      if o.Failure? {
        vectors.PopBack();
        return o;
      }
    }

    /** Publishes a row under its reservation and tombstones the row it replaces. */
    method CommitRow(t: Reservation, row: nat)
      requires deleted.Valid() && Holds(ids.State(), t) && row == |ids.labels|
      requires forall r <- Replaced(t) :: r < deleted.Room()
      modifies ids, deleted
      ensures deleted.Valid() && deleted.Room() == old(deleted.Room())
      ensures ids.State() == Commit(old(ids.State()), t, row)
      ensures deleted.Contents() == old(deleted.Contents()) + Replaced(t)
    {
      hide Marks;
      var replaced := ids.CommitId(t, row);
      if replaced != INVALID_ROW {
        assert replaced in Replaced(t);
        var added := deleted.Set(replaced);
      }
    }

    /**
      * Appends, indexes and commits a row under a held reservation; on any failure the reservation is
      * released and everything is as it was before it was taken.
      */
    method InsertReserved(t: Reservation, row: Row, reserveOnly: bool, fault: Fault, ghost start: Snap, ghost upsert: bool)
      returns (o: Outcome)
      requires Fits() && Good(start) && Abs() == start.(ids := Reserve(start.ids, t.external))
      requires Reservable(start.ids, t.external, upsert) && t == Ticket(start.ids, t.external)
      modifies vectors, ids, deleted, index
      ensures Fits()
      ensures o.Success? <==> |row| == vectors.dim && |start.rows| < vectors.maxRows && fault == NoFault
      ensures Abs() == if o.Success? then AfterInsert(start, t.external, row, reserveOnly) else start
    {
      hide Good, Marks, Records, Reserve, Rollback, Holds, Commit, Replaced, AllOfDim;
      InsertFacts(start, t.external, upsert);
      if fault == NoCapacity {
        ids.RollbackId(t);
        return Failure(BadAlloc);
      }
      deleted.EnsureSize(|vectors.rows| + 1);
      o := AppendIndexed(row, reserveOnly, fault);
      if o.Failure? {
        ids.RollbackId(t);
        return o;
      }
      CommitRow(t, |vectors.rows| - 1);
    }

    /** One insert, from taking the id to committing it. */
    method Insert(k: ExternalId, row: Row, upsert: bool, reserveOnly: bool, fault: Fault)
      returns (o: Outcome, t: Reservation)
      requires Valid()
      modifies vectors, ids, deleted, index
      ensures Valid()
      ensures o.Success? <==> old(k != INVALID_EXTERNAL && (k in Records(Abs()) ==> upsert) && |row| == vectors.dim
                                  && |vectors.rows| < vectors.maxRows) && fault == NoFault
      ensures o.Success? ==> t == old(Ticket(ids.State(), k)) && old(Reservable(ids.State(), k, upsert))
      ensures Abs() == if o.Success? then AfterInsert(old(Abs()), k, row, reserveOnly) else old(Abs())
    {
      hide Good, Records;
      ghost var before := Abs();
      RecordsKeys(before);
      NothingPending(before);
      var reserved := ids.ReserveId(k, upsert);
      if reserved.Refused? {
        return Failure(if reserved.error == Reserved then InvalidArgument else Exists), Reservation(k, INVALID_ROW);
      }
      t := reserved.value;
      o := InsertReserved(t, row, reserveOnly, fault, before, upsert);
      if o.Success? {
        BelowInvalid(before);
        InsertRefines(before, k, row, reserveOnly, upsert);
      }
    }

    /** Inserts a row under an id that is free. */
    method CopyRow(k: ExternalId, row: Row, fault: Fault) returns (o: Outcome)
      requires Valid() && Reservable(ids.State(), k, false) && |row| == vectors.dim && |vectors.rows| < vectors.maxRows
      modifies vectors, ids, deleted, index
      ensures Valid() && o.Success? == (fault == NoFault)
      ensures Abs() == if o.Success? then AfterInsert(old(Abs()), k, row, false) else old(Abs())
    {
      hide Good, Records, Marks, AllOfDim;
      EntriesAreRecords(Abs());
      var t;
      o, t := Insert(k, row, false, false, fault);
    }

    /** Takes back a committed row that could not be linked. */
    method AbandonRow(t: Reservation, row: nat)
      requires Valid() && Revertible(ids.State(), |vectors.rows|, deleted.Contents(), t, row)
      modifies vectors, ids, deleted, index
      ensures Valid()
      ensures old(t.external in ids.entries && ids.live > 0) && Abs() == old(AfterAbandon(Abs(), t, row))
    {
      hide Good, Marks;
      ghost var before := Abs();
      AbandonRefines(before, t, row);
      ids.RevertId(t);
      var added := deleted.Set(row);
      if t.previous != INVALID_ROW {
        var was := deleted.Clear(t.previous);
      }
      assert deleted.Contents() == before.marks + {row} - Replaced(t);
    }

    method Erase(k: ExternalId) returns (o: Outcome)
      requires Valid()
      modifies vectors, ids, deleted, index
      ensures Valid()
      ensures o.Success? <==> k in old(Records(Abs()))
      ensures o.Success? ==> old(Visible(ids.State(), k) && ids.live > 0) && Abs() == AfterErase(old(Abs()), k)
      ensures o.Failure? ==> o.error == Missing && Abs() == old(Abs())
    {
      hide Good, Records, Marks, Consistent;
      ghost var before := Abs();
      RecordsKeys(before);
      NothingPending(before);
      if Visible(before.ids, k) {
        EraseRefines(before, k);
        EraseFacts(before, k);
      }
      GoodIsConsistent(before);
      var erased := ids.EraseId(k);
      if erased.Refused? {
        return Failure(Missing);
      }
      var added := deleted.Set(erased.value);
      assert Abs() == AfterErase(before, k);
      return Success;
    }
  }

  /**
    * What can go wrong, and where the time slices end, while a batch runs; indexed by row of the batch, in a compaction
    * by place among the live rows. `pooled` says that the links of a section are shared out on a pool, as they are
    * when one is given and the caller is not one of its workers; `shareFails` that the shared block of that parallel
    * loop cannot be allocated, by first row of the section.
    */
  datatype Env = Env(fault: nat -> Fault, capacityFails: bool, prepareFails: nat -> bool, linkFails: nat -> bool,
                     sliceEnds: nat -> bool, pooled: bool, shareFails: nat -> bool)

  /** Which of `n` links fail, from batch row `from` on. */
  function Flags(env: Env, from: nat, n: nat): (flags: seq<bool>)
    ensures |flags| == n
  {
    seq(n, j requires 0 <= j => env.linkFails(from + j))
  }

  /** The rows of a batch from `done` on can be inserted into `view`. */
  ghost predicate Insertable(batch: seq<Pair>, done: nat, view: map<ExternalId, Row>, upsert: bool, dim: nat) {
    forall i :: done <= i < |batch| ==> batch[i].id != INVALID_EXTERNAL && |batch[i].row| == dim
                                        && (upsert || batch[i].id !in view)
  }

  /** What a batch is checked for before anything is inserted. */
  predicate WellFormed(batch: seq<Pair>, dim: nat) {
    && (forall p <- batch :: |p.row| == dim)
    && DistinctIds(batch)
    && (forall p <- batch :: p.id != INVALID_EXTERNAL)
  }

  ghost predicate Acceptable(batch: seq<Pair>, view: map<ExternalId, Row>, upsert: bool, dim: nat, free: int) {
    WellFormed(batch, dim) && (upsert || forall p <- batch :: p.id !in view) && |batch| <= free
  }

  // ----- what the operations do, over values -----

  /**
    * A collection as its callers can observe it: the records, the ids whose row no search can reach, and how many rows
    * there are and may be.
    */
  datatype Store = Store(records: map<ExternalId, Row>, unlinked: set<ExternalId>, rows: nat, maxRows: nat)

  /** A store, how many rows of the batch have been dealt with, and whether the batch goes on. */
  datatype Progress = Progress(store: Store, next: nat, ok: bool)

  predicate CanAdd(v: Store, k: ExternalId, row: Row, upsert: bool, dim: nat, fault: Fault) {
    k != INVALID_EXTERNAL && (k in v.records ==> upsert) && |row| == dim && v.rows < v.maxRows && fault == NoFault
  }

  function AfterAdd(v: Store, k: ExternalId, row: Row): Store {
    v.(records := v.records[k := row], unlinked := v.unlinked - {k}, rows := v.rows + 1)
  }

  function AfterRemove(v: Store, k: ExternalId): Store {
    v.(records := v.records - {k}, unlinked := v.unlinked - {k})
  }

  ghost predicate Passes(v: Store, batch: seq<Pair>, upsert: bool, dim: nat, env: Env) {
    batch == [] || (!env.capacityFails && Acceptable(batch, v.records, upsert, dim, v.maxRows - v.rows))
  }

  /** The first row from `i` on that fails, or `n`. */
  function FirstFault(env: Env, i: nat, n: nat): (r: nat)
    requires i <= n
    ensures i <= r <= n && (r < n <==> exists j: nat :: i <= j < n && env.fault(j) != NoFault)
    decreases n - i
  {
    if i == n || env.fault(i) != NoFault then i else FirstFault(env, i + 1, n)
  }

  function AfterRows(v: Store, ps: seq<Pair>): Store {
    v.(records := Put(v.records, ps), unlinked := v.unlinked - IdsOf(ps), rows := v.rows + |ps|)
  }

  /** How many rows a section of at most `want` has grown when it stops, if it has grown `n` already. */
  function GrownCount(env: Env, from: nat, n: nat, want: nat): (count: nat)
    requires n <= want
    ensures n <= count <= want
    decreases want - n
  {
    if n == want || env.fault(from + n) != NoFault then n
    else if env.sliceEnds(from + n) then n + 1
    else GrownCount(env, from, n + 1, want)
  }

  /** The growing phase ended because a row failed, not because the section was full or its time was up. */
  predicate GrowStops(env: Env, from: nat, count: nat, want: nat) {
    count < want && env.fault(from + count) != NoFault && (count == 0 || !env.sliceEnds(from + count - 1))
  }

  /** The section's links never ran: its parallel loop failed before the first of them. */
  predicate Lost(env: Env, from: nat, count: nat) {
    env.pooled && count > 1 && env.shareFails(from)
  }

  function AfterSection(v: Store, ps: seq<Pair>, failed: seq<bool>): Store
    requires |ps| == |failed|
  {
    v.(records := Put(v.records, Kept(ps, failed)), unlinked := v.unlinked - KeptIds(ps, failed), rows := v.rows + |ps|)
  }

  function AfterLostSection(v: Store, ps: seq<Pair>): Store {
    v.(records := Put(v.records, ps), unlinked := v.unlinked + IdsOf(ps), rows := v.rows + |ps|)
  }

  function Wanted(batch: seq<Pair>, done: nat, sectionRows: nat): nat
    requires done <= |batch|
  {
    if sectionRows < |batch| - done then sectionRows else |batch| - done
  }

  /** How many rows the section from row `done` on grows. */
  function SectionCount(batch: seq<Pair>, done: nat, sectionRows: nat, env: Env): (count: nat)
    requires done <= |batch|
    ensures done + count <= |batch|
  {
    if env.prepareFails(done) then 0 else GrownCount(env, done, 0, Wanted(batch, done, sectionRows))
  }

  /** One grow-and-link section, from row `done` of the batch. */
  function OneSection(v: Store, batch: seq<Pair>, done: nat, sectionRows: nat, env: Env): (p: Progress)
    requires done < |batch| && 0 < sectionRows
    ensures done <= p.next <= |batch| && (p.ok ==> done < p.next)
  {
    var count := SectionCount(batch, done, sectionRows, env);
    var ps := batch[done..done + count];
    if env.prepareFails(done) then Progress(v, done, false)
    else if Lost(env, done, count) then Progress(AfterLostSection(v, ps), done + count, false)
    else
      Progress(AfterSection(v, ps, Flags(env, done, count)), done + count,
               true !in Flags(env, done, count) && !GrowStops(env, done, count, Wanted(batch, done, sectionRows)))
  }

  /** All sections from row `done` of the batch on, up to the first that fails. */
  function AllSections(v: Store, batch: seq<Pair>, done: nat, sectionRows: nat, env: Env): (p: Progress)
    requires done <= |batch| && 0 < sectionRows
    ensures done <= p.next <= |batch| && (p.ok ==> p.next == |batch|)
    decreases |batch| - done
  {
    if done == |batch| then Progress(v, done, true)
    else
      var p := OneSection(v, batch, done, sectionRows, env);
      if p.ok then AllSections(p.store, batch, p.next, sectionRows, env) else p
  }

  /** Compaction has something to drop, and nothing fails on the way. */
  ghost predicate Compacts(v: Store, env: Env) {
    |v.records| < v.rows && !env.capacityFails && forall i: nat | i < |v.records| :: env.fault(i) == NoFault
  }

  ghost function AfterCompact(v: Store, env: Env): Store {
    if Compacts(v, env) then Store(v.records, {}, |v.records|, INVALID_ROW) else v
  }

  /** The keys of the next sections are as they were. */
  lemma LaterKeysUntouched(m: map<ExternalId, Row>, batch: seq<Pair>, done: nat, failed: seq<bool>, upsert: bool, dim: nat)
    requires done + |failed| <= |batch| && DistinctIds(batch) && Insertable(batch, done, m, upsert, dim)
    ensures Insertable(batch, done + |failed|, Put(m, Kept(batch[done..done + |failed|], failed)), upsert, dim)
  {
    hide Put, Kept;
    var next := done + |failed|;
    forall i | next <= i < |batch|
      ensures batch[i].id in Put(m, Kept(batch[done..next], failed)) <==> batch[i].id in m
    {
      OthersUntouched(m, batch[done..next], failed, batch[i].id);
    }
  }

  class Collection {
    var state: CollectionState

    /** Labels, mapping, rows, tombstones and index nodes agree, and nothing is pending. */
    ghost predicate Valid()
      reads this, state.vectors, state.ids, state.deleted, state.index
    {
      state.Valid()
    }

    /** Every row is linked or tombstoned: a search can reach every record. */
    ghost predicate AllLinked()
      reads this, state.vectors, state.ids, state.deleted, state.index
    {
      Settled(state.Abs())
    }

    ghost function Value(): Store
      requires Valid()
      reads this, state.vectors, state.ids, state.deleted, state.index
    {
      Store(View(), Unlinked(state.Abs()), |state.vectors.rows|, state.vectors.maxRows)
    }

    ghost function View(): map<ExternalId, Row>
      requires Valid()
      reads this, state.vectors, state.ids, state.deleted, state.index
    {
      Records(state.Abs())
    }

    constructor (dim: nat, maxRows: nat)
      requires maxRows <= INVALID_ROW
      ensures Valid() && AllLinked() && Value() == Store(map[], {}, 0, maxRows) && state.vectors.dim == dim
      ensures fresh(state.vectors) && fresh(state.ids) && fresh(state.deleted) && fresh(state.index)
    {
      state := new CollectionState(dim, maxRows);
    }

    method Add(k: ExternalId, row: Row, upsert: bool, fault: Fault) returns (o: Outcome)
      requires Valid()
      modifies state.vectors, state.ids, state.deleted, state.index
      ensures Valid()
      ensures o.Success? <==> CanAdd(old(Value()), k, row, upsert, state.vectors.dim, fault)
      ensures Value() == if o.Success? then AfterAdd(old(Value()), k, row) else old(Value())
    {
      hide Good, Records, Unlinked;
      var t;
      o, t := state.Insert(k, row, upsert, false, fault);
      if o.Success? {
        BelowInvalid(old(state.Abs()));
        InsertRefines(old(state.Abs()), k, row, false, upsert);
        InsertUnlinked(old(state.Abs()), k, row, false);
      }
    }

    method Remove(k: ExternalId) returns (o: Outcome)
      requires Valid()
      modifies state.vectors, state.ids, state.deleted, state.index
      ensures Valid()
      ensures o == if k in old(View()) then Success else Failure(Missing)
      ensures Value() == AfterRemove(old(Value()), k)
    {
      hide Good, Records;
      RecordsKeys(state.Abs());
      o := state.Erase(k);
      if o.Success? {
        EraseRefines(old(state.Abs()), k);
        EraseUnlinked(old(state.Abs()), k);
      }
    }

    method Get(k: ExternalId) returns (found: bool, row: Row)
      requires Valid()
      ensures found <==> k in View()
      ensures found ==> row == View()[k]
    {
      RecordsKeys(state.Abs());
      NothingPending(state.Abs());
      hide Consistent;
      var r;
      found, r := state.ids.Find(k);
      row := if found then state.vectors.rows[r] else [];
    }

    /** The checks every batch goes through before its first row; an empty batch needs no room. */
    method CheckBatch(batch: seq<Pair>, upsert: bool, env: Env) returns (o: Outcome)
      requires Valid()
      modifies state.deleted
      ensures Valid() && state.Abs() == old(state.Abs())
      ensures o.Success? <==> Passes(old(Value()), batch, upsert, state.vectors.dim, env)
    {
      hide Good, Records, Marks, Unlinked;
      if batch == [] {
        return Success;
      }
      if exists p <- batch :: |p.row| != state.vectors.dim {
        return Failure(DimensionMismatch);
      }
      if !DistinctIds(batch) || exists p <- batch :: p.id == INVALID_EXTERNAL {
        return Failure(InvalidArgument);
      }
      if !upsert {
        var i := 0;
        while i < |batch|
          invariant i <= |batch| && unchanged(state.deleted)
          invariant forall j :: 0 <= j < i ==> batch[j].id !in View()
        {
          var found, row := Get(batch[i].id);
          if found {
            return Failure(Exists);
          }
          i := i + 1;
        }
      }
      if |state.vectors.rows| + |batch| > state.vectors.maxRows {
        return Failure(ResourceExhausted);
      }
      if env.capacityFails {
        return Failure(BadAlloc);
      }
      state.deleted.EnsureSize(|state.vectors.rows| + |batch|);
      return Success;
    }

    /** The row-at-a-time batch: each row is inserted completely before the next; the first failure ends the batch. */
    method AddBatch(batch: seq<Pair>, upsert: bool, env: Env) returns (o: Outcome, inserted: nat)
      requires Valid()
      modifies state.vectors, state.ids, state.deleted, state.index
      ensures Valid()
      ensures inserted == if Passes(old(Value()), batch, upsert, state.vectors.dim, env) then FirstFault(env, 0, |batch|) else 0
      ensures Value() == AfterRows(old(Value()), batch[..inserted])
      ensures o.Success? <==> Passes(old(Value()), batch, upsert, state.vectors.dim, env) && inserted == |batch|
    {
      hide Good, Records, Marks, Put, Kept, Unlinked, Passes, FirstFault, IdsOf, CanAdd;
      ghost var v := Value();
      NoRows(v, batch);
      PassesMeans(v, batch, upsert, state.vectors.dim, env);
      o := CheckBatch(batch, upsert, env);
      inserted := 0;
      if o.Failure? {
        return;
      }
      while inserted < |batch|
        invariant inserted <= |batch| && o.Success? && FirstFault(env, 0, |batch|) == FirstFault(env, inserted, |batch|)
        invariant Valid() && state.vectors.dim == old(state.vectors.dim)
        invariant Value() == AfterRows(v, batch[..inserted])
      {
        var p := batch[inserted];
        NextRow(v, batch, inserted, upsert, state.vectors.dim, env);
        o := Add(p.id, p.row, upsert, env.fault(inserted));
        if o.Failure? {
          return;
        }
        inserted := inserted + 1;
      }
    }

    /** One row of the growing phase. */
    method GrowOne(batch: seq<Pair>, from: nat, grown: seq<Reservation>, upsert: bool, fault: Fault, ghost start: Snap)
      returns (o: Outcome, grown': seq<Reservation>)
      requires state.Valid() && Good(start) && from + |grown| < |batch| && DistinctIds(batch)
      requires Insertable(batch, from, Records(start), upsert, state.vectors.dim)
      requires Growing(start, state.Abs(), batch[from..from + |grown|], grown)
      requires |state.vectors.rows| < state.vectors.maxRows
      modifies state.vectors, state.ids, state.deleted, state.index
      ensures state.Valid() && o.Success? == (fault == NoFault)
      ensures |grown'| == |grown| + (if o.Success? then 1 else 0) && from + |grown'| <= |batch|
      ensures |state.vectors.rows| == |old(state.vectors.rows)| + |grown'| - |grown|
      ensures Growing(start, state.Abs(), batch[from..from + |grown'|], grown')
    {
      hide Good, Records, Marks, Put, Growing, Insertable, DistinctIds, Unlinked, AllOfDim;
      var p := batch[from + |grown|];
      var t;
      ghost var s, ps := state.Abs(), batch[from..from + |grown|];
      GrowNext(start, s, batch, from, grown, upsert, state.vectors.dim);
      o, t := state.Insert(p.id, p.row, upsert, true, fault);
      if o.Failure? {
        return o, grown;
      }
      GrowStep(start, s, ps, grown, p, upsert);
      assert ps + [p] == batch[from..from + |grown| + 1];
      return o, grown + [t];
    }

    /** Appends, allocates and publishes rows of the batch until the section is full, its time is up or a row fails. */
    method GrowSection(batch: seq<Pair>, from: nat, want: nat, upsert: bool, env: Env)
      returns (o: Outcome, grown: seq<Reservation>)
      requires Valid() && 0 < want && from + want <= |batch| && DistinctIds(batch)
      requires Insertable(batch, from, View(), upsert, state.vectors.dim)
      requires |state.vectors.rows| + |batch| - from <= state.vectors.maxRows
      modifies state.vectors, state.ids, state.deleted, state.index
      ensures state.Valid() && |grown| == GrownCount(env, from, 0, want)
      ensures Growing(old(state.Abs()), state.Abs(), batch[from..from + |grown|], grown)
      ensures o.Failure? <==> GrowStops(env, from, |grown|, want)
      ensures |state.vectors.rows| == |old(state.vectors.rows)| + |grown|
    {
      hide Good, Records, Marks, Put, Growing, Insertable, DistinctIds, Unlinked, GrownCount, GrowStops, AllOfDim;
      ghost var start := state.Abs();
      NothingGrown(start);
      assert batch[from..from] == [];
      grown := [];
      o := Success;
      GrownNext(env, from, 0, want);
      while |grown| < want
        invariant |grown| <= want && o.Success?
        invariant GrownCount(env, from, 0, want) == GrownCount(env, from, |grown|, want)
        invariant state.Valid() && |state.vectors.rows| == |start.rows| + |grown|
        invariant Growing(start, state.Abs(), batch[from..from + |grown|], grown)
        invariant |grown| == 0 || !env.sliceEnds(from + |grown| - 1)
        decreases want - |grown|
      {
        GrownNext(env, from, |grown|, want);
        o, grown := GrowOne(batch, from, grown, upsert, env.fault(from + |grown|), start);
        if o.Failure? {
          return;
        }
        if env.sliceEnds(from + |grown| - 1) {
          return;
        }
      }
    }

    /** Links the rows of a section; the ones whose link fails stay unlinked. */
    method LinkSection(first: nat, from: nat, count: nat, env: Env) returns (failed: seq<bool>)
      requires first + count <= state.index.nodes
      modifies state.index`linked
      ensures failed == Flags(env, from, count)
      ensures state.index.linked == old(state.index.linked) + LinkedRows(first, failed)
    {
      failed := [];
      while |failed| < count
        invariant |failed| <= count && failed == Flags(env, from, |failed|)
        invariant state.index.linked == old(state.index.linked) + LinkedRows(first, failed)
      {
        var ok := state.index.Link(first + |failed|, env.linkFails(from + |failed|));
        NextLinked(first, failed, !ok);
        failed := failed + [!ok];
      }
    }

    /** Takes back the rows of a section that could not be linked. */
    method AbandonSection(first: nat, ts: seq<Reservation>, failed: seq<bool>, ghost start: Snap, ghost ps: seq<Pair>)
      requires state.Fits() && first == |start.rows| && Cleaning(start, state.Abs(), ps, ts, failed, 0)
      modifies state.vectors, state.ids, state.deleted, state.index
      ensures Valid() && |state.vectors.rows| == old(|state.vectors.rows|) && |ps| == |failed|
      ensures View() == Put(Records(start), Kept(ps, failed))
      ensures Unlinked(state.Abs()) == Unlinked(start) - KeptIds(ps, failed)
      ensures Settled(start) ==> AllLinked()
    {
      hide Good, Records, Settled, Marks, Put, Kept, KeptIds, Cleaning, Unlinked, AllOfDim, Revertible, Replaced;
      CleaningShape(start, state.Abs(), ps, ts, failed, 0);
      var i := 0;
      while i < |failed|
        invariant i <= |failed| && state.Valid() && Cleaning(start, state.Abs(), ps, ts, failed, i)
        invariant |state.vectors.rows| == old(|state.vectors.rows|)
      {
        if failed[i] {
          DropStep(start, state.Abs(), ps, ts, failed, i);
          state.AbandonRow(ts[i], first + i);
        } else {
          KeepStep(start, state.Abs(), ps, ts, failed, i);
        }
        i := i + 1;
      }
      SectionDone(start, state.Abs(), ps, ts, failed);
    }

    /**
      * One grow-and-link section, from row `done` of the batch. Rows whose link fails are taken back before it ends.
      * If the parallel loop over the links fails before it starts, the exception leaves at once: the rows stay, live
      * and unlinked. A collection with all rows linked stays so exactly if that does not happen.
      */
    method Section(batch: seq<Pair>, done: nat, sectionRows: nat, upsert: bool, env: Env)
      returns (o: Outcome, next: nat)
      requires Valid() && 0 < sectionRows && done < |batch| && DistinctIds(batch)
      requires Insertable(batch, done, View(), upsert, state.vectors.dim)
      requires |state.vectors.rows| + |batch| - done <= state.vectors.maxRows
      modifies state.vectors, state.ids, state.deleted, state.index
      ensures Valid()
      ensures Progress(Value(), next, o.Success?) == OneSection(old(Value()), batch, done, sectionRows, env)
      ensures old(AllLinked()) ==> (AllLinked() <==> !Lost(env, done, SectionCount(batch, done, sectionRows, env)))
      ensures o.Success? ==> Insertable(batch, next, View(), upsert, state.vectors.dim)
    {
      hide Good, Records, Settled, Marks, Put, Kept, KeptIds, Growing, Cleaning, Insertable, Unlinked, GrownCount, AllOfDim, DistinctIds, GrowStops;
      ghost var start := state.Abs();
      var want := Wanted(batch, done, sectionRows);
      if env.prepareFails(done) {
        return Failure(BadAlloc), done;
      }
      var first := |state.vectors.rows|;
      var grown;
      o, grown := GrowSection(batch, done, want, upsert, env);
      ghost var s, ps := state.Abs(), batch[done..done + |grown|];
      GrowingShape(start, s, ps, grown);
      next := done + |grown|;
      if env.pooled && |grown| > 1 && env.shareFails(done) {
        LostSection(start, s, ps, grown);
        return Failure(BadAlloc), next;
      }
      var failed := LinkSection(first, done, |grown|, env);
      PartDistinct(batch, done, next);
      LinkedSection(start, s, ps, grown, failed);
      AbandonSection(first, grown, failed, start, ps);
      LaterKeysUntouched(Records(start), batch, done, failed, upsert, state.vectors.dim);
      if true in failed {
        o := Failure(BadAlloc);
      }
    }

    /**
      * The concurrent batch: sections that grow exclusively and then link while searches continue. Any failure ends
      * the batch with its section.
      */
    method AddBatchConcurrent(batch: seq<Pair>, upsert: bool, env: Env, sectionRows: nat) returns (o: Outcome)
      requires Valid() && 0 < sectionRows
      modifies state.vectors, state.ids, state.deleted, state.index
      ensures Valid()
      ensures var v := old(Value());
              if Passes(v, batch, upsert, state.vectors.dim, env) then
                var p := AllSections(v, batch, 0, sectionRows, env); Value() == p.store && o.Success? == p.ok
              else Value() == v && o.Failure?
    {
      hide Good, Records, Settled, Marks, Put, Kept, Insertable, DistinctIds, Unlinked, OneSection;
      ghost var v := Value();
      PassesMeans(v, batch, upsert, state.vectors.dim, env);
      o := CheckBatch(batch, upsert, env);
      if o.Failure? {
        return;
      }
      var done := 0;
      while done < |batch|
        invariant done <= |batch| && o.Success? && Valid()
        invariant DistinctIds(batch) && |state.vectors.rows| + |batch| - done <= state.vectors.maxRows
        invariant Insertable(batch, done, View(), upsert, state.vectors.dim)
        invariant AllSections(v, batch, 0, sectionRows, env) == AllSections(Value(), batch, done, sectionRows, env)
        decreases |batch| - done
      {
        RowsGrown(Value(), batch, done, sectionRows, env);
        o, done := Section(batch, done, sectionRows, upsert, env);
        if o.Failure? {
          return;
        }
      }
    }

    /** A new state holding the live rows, inserted one by one. */
    method Rebuild(env: Env) returns (o: Outcome, rebuilt: CollectionState)
      requires Valid()
      ensures o.Success? ==> rebuilt.Valid() && Rebuilt(state.Abs(), |state.vectors.rows|, rebuilt.Abs()) && fresh(rebuilt)
      ensures o.Success? ==> rebuilt.vectors.dim == state.vectors.dim && rebuilt.vectors.maxRows == INVALID_ROW
      ensures o.Success? ==> fresh(rebuilt.vectors) && fresh(rebuilt.ids) && fresh(rebuilt.deleted) && fresh(rebuilt.index)
      ensures o.Success? <==> !env.capacityFails && forall i: nat | i < |View()| :: env.fault(i) == NoFault
    {
      hide Good, Records, Settled, Marks, Rebuilt, AllOfDim, LivePairs, Put, RecordsBelow, Copied;
      ghost var was := state.Abs();
      if env.capacityFails {
        return Failure(BadAlloc), state;
      }
      NothingCopied(was, env);
      o := Success;
      rebuilt := new CollectionState(state.vectors.dim, INVALID_ROW);
      var r: nat := 0;
      while r < |state.vectors.rows|
        invariant r <= |state.vectors.rows| && o.Success?
        invariant fresh(rebuilt.vectors) && fresh(rebuilt.ids) && fresh(rebuilt.deleted) && fresh(rebuilt.index)
        invariant fresh(rebuilt) && rebuilt.vectors.dim == state.vectors.dim && rebuilt.vectors.maxRows == INVALID_ROW
        invariant rebuilt.Valid() && Copied(was, r, rebuilt.Abs(), env)
      {
        o := RebuildRow(rebuilt, r, env, was);
        if o.Failure? {
          return;
        }
        r := r + 1;
      }
      AllCopied(was, rebuilt.Abs(), env);
    }

    /** Copies one row into the rebuilt state, if it is live. */
    method RebuildRow(rebuilt: CollectionState, r: nat, env: Env, ghost was: Snap) returns (o: Outcome)
      requires Valid() && was == state.Abs() && r < |state.vectors.rows|
      requires rebuilt.Valid() && rebuilt.Repr !! state.Repr && Copied(was, r, rebuilt.Abs(), env)
      requires rebuilt.vectors.dim == state.vectors.dim && rebuilt.vectors.maxRows == INVALID_ROW
      modifies rebuilt.vectors, rebuilt.ids, rebuilt.deleted, rebuilt.index
      ensures o.Success? ==> rebuilt.Valid() && Copied(was, r + 1, rebuilt.Abs(), env)
      ensures o.Failure? ==> exists i: nat :: i < |View()| && env.fault(i) != NoFault
    {
      hide Good, Records, Settled, Marks, AllOfDim, Copied, Reservable, AfterInsert;
      var dead := state.deleted.Test(r);
      CopyNext(was, r, rebuilt.Abs(), env);
      if dead {
        return Success;
      }
      OneOfDim(state.vectors.rows, state.vectors.dim, r);
      o := rebuilt.CopyRow(state.ids.labels[r], state.vectors.rows[r], env.fault(|rebuilt.vectors.rows|));
    }

    /**
      * Rebuilds the state from its live rows, in their order. Readers keep the old state until the new one is
      * complete; a failure on the way leaves the old one in place. Rows that were never linked are linked.
      */
    method Compact(env: Env) returns (o: Outcome)
      requires Valid()
      modifies this
      ensures Valid() && Value() == AfterCompact(old(Value()), env) && state.vectors.dim == old(state.vectors.dim)
      ensures o.Success? <==> |old(View())| == |old(state.vectors.rows)| || Compacts(old(Value()), env)
      ensures o.Failure? || old(state.deleted.count) == 0 ==> state == old(state)
      ensures o.Success? ==> state.deleted.Contents() == {}
      ensures state == old(state)
              || (fresh(state.vectors) && fresh(state.ids) && fresh(state.deleted) && fresh(state.index))
      ensures Compacts(old(Value()), env) ==>
                Rebuilt(old(state.Abs()), |old(state.vectors.rows)|, state.Abs()) && AllLinked() && state != old(state)
    {
      hide Good, Records, Settled, Marks, Rebuilt, AllOfDim, LivePairs, Put, Unlinked;
      SnapShape(state.Abs());
      RecordCount(state.Abs());
      if state.deleted.count == 0 {
        return Success;
      }
      var rebuilt;
      o, rebuilt := Rebuild(env);
      if o.Success? {
        RebuiltShowsTheSame(state.Abs(), rebuilt.Abs());
        SettledIff(rebuilt.Abs());
        RecordCount(rebuilt.Abs());
        state := rebuilt;
      }
    }
  }

  // ----- whole runs -----

  datatype Op =
    | AddOp(k: ExternalId, row: Row, upsert: bool, fault: Fault)
    | BatchOp(batch: seq<Pair>, upsert: bool, env: Env)
    | ConcurrentBatchOp(batch: seq<Pair>, upsert: bool, env: Env, sectionRows: nat)
    | RemoveOp(k: ExternalId)
    | CompactOp(env: Env)

  predicate Runnable(op: Op) {
    op.ConcurrentBatchOp? ==> op.sectionRows > 0
  }

  /** What one operation makes of a store, given what fails inside it. */
  ghost function After(v: Store, op: Op, dim: nat): Store
    requires Runnable(op)
  {
    match op
    case AddOp(k, row, upsert, fault) => if CanAdd(v, k, row, upsert, dim, fault) then AfterAdd(v, k, row) else v
    case BatchOp(batch, upsert, env) =>
      if Passes(v, batch, upsert, dim, env) then AfterRows(v, batch[..FirstFault(env, 0, |batch|)]) else v
    case ConcurrentBatchOp(batch, upsert, env, sectionRows) =>
      if Passes(v, batch, upsert, dim, env) then AllSections(v, batch, 0, sectionRows, env).store else v
    case RemoveOp(k) => AfterRemove(v, k)
    case CompactOp(env) => AfterCompact(v, env)
  }

  ghost function AfterAll(v: Store, ops: seq<Op>, dim: nat): Store
    requires forall op <- ops :: Runnable(op)
  {
    if ops == [] then v else After(AfterAll(v, ops[..|ops| - 1], dim), ops[|ops| - 1], dim)
  }

  /** One operation on a collection, whatever fails inside it. */
  method Perform(c: Collection, op: Op)
    requires c.Valid() && Runnable(op)
    modifies c, c.state.vectors, c.state.ids, c.state.deleted, c.state.index
    ensures c.Valid() && c.state.vectors.dim == old(c.state.vectors.dim)
    ensures c.state == old(c.state)
            || (fresh(c.state.vectors) && fresh(c.state.ids) && fresh(c.state.deleted) && fresh(c.state.index))
    ensures c.Value() == After(old(c.Value()), op, c.state.vectors.dim)
  {
    hide Good, Records, Unlinked, AllSections, Passes, CanAdd, AfterCompact, Compacts, AfterAdd, AfterRemove;
    ghost var v := c.Value();
    match op
    case AddOp(k, row, upsert, fault) =>
      var o := c.Add(k, row, upsert, fault);
    case BatchOp(batch, upsert, env) =>
      NoRows(v, batch);
      var o, inserted := c.AddBatch(batch, upsert, env);
    case ConcurrentBatchOp(batch, upsert, env, sectionRows) =>
      var o := c.AddBatchConcurrent(batch, upsert, env, sectionRows);
    case RemoveOp(k) =>
      var o := c.Remove(k);
    case CompactOp(env) =>
      var o := c.Compact(env);
  }

  /**
    * Any run of operations, with any failures: labels, mapping, rows, tombstones and index agree at the end, and what
    * callers see is what the operations make of a finite map, given their failures. Every row is linked or tombstoned
    * exactly when no id is left unlinked.
    */
  method Run(c: Collection, ops: seq<Op>)
    requires c.Valid() && forall op <- ops :: Runnable(op)
    modifies c, c.state.vectors, c.state.ids, c.state.deleted, c.state.index
    ensures c.Valid() && c.state.vectors.dim == old(c.state.vectors.dim)
    ensures c.Value() == AfterAll(old(c.Value()), ops, c.state.vectors.dim)
    ensures c.AllLinked() <==> AfterAll(old(c.Value()), ops, c.state.vectors.dim).unlinked == {}
  {
    hide Good, Records, Settled, After, Unlinked;
    ghost var v, dim := c.Value(), c.state.vectors.dim;
    var i := 0;
    assert ops[..0] == [];
    while i < |ops|
      invariant i <= |ops| && c.Valid() && c.state.vectors.dim == dim
      invariant c.state == old(c.state)
                || (fresh(c.state.vectors) && fresh(c.state.ids) && fresh(c.state.deleted) && fresh(c.state.index))
      invariant c.Value() == AfterAll(v, ops[..i], dim)
    {
      Perform(c, ops[i]);
      assert ops[..i + 1][..i] == ops[..i];
      i := i + 1;
    }
    assert ops[..|ops|] == ops;
    SettledIff(c.state.Abs());
  }

  lemma OneOfDim(rows: seq<Row>, dim: nat, r: nat)
    requires AllOfDim(rows, dim) && r < |rows|
    ensures |rows[r]| == dim
  {
  }

  lemma PassesMeans(v: Store, batch: seq<Pair>, upsert: bool, dim: nat, env: Env)
    requires v.rows <= v.maxRows
    ensures Passes(v, batch, upsert, dim, env) ==>
              DistinctIds(batch) && Insertable(batch, 0, v.records, upsert, dim) && |batch| <= v.maxRows - v.rows
  {
  }

  lemma PartDistinct(batch: seq<Pair>, from: nat, to: nat)
    requires from <= to <= |batch| && DistinctIds(batch)
    ensures DistinctIds(batch[from..to])
  {
  }

  lemma GrowingShape(start: Snap, s: Snap, ps: seq<Pair>, ts: seq<Reservation>)
    requires Growing(start, s, ps, ts)
    ensures |s.rows| == |start.rows| + |ps| && |ps| == |ts| && s.linked == start.linked
  {
  }

  /** The next row of a batch that passes is added unless it fails. */
  lemma NextRow(v: Store, batch: seq<Pair>, i: nat, upsert: bool, dim: nat, env: Env)
    requires i < |batch| && DistinctIds(batch) && Insertable(batch, 0, v.records, upsert, dim)
    requires |batch| <= v.maxRows - v.rows
    ensures CanAdd(AfterRows(v, batch[..i]), batch[i].id, batch[i].row, upsert, dim, env.fault(i)) <==> env.fault(i) == NoFault
    ensures AfterAdd(AfterRows(v, batch[..i]), batch[i].id, batch[i].row) == AfterRows(v, batch[..i + 1])
    ensures FirstFault(env, i, |batch|) == if env.fault(i) == NoFault then FirstFault(env, i + 1, |batch|) else i
    ensures FirstFault(env, |batch|, |batch|) == |batch|
  {
    hide Put, Kept, IdsOf, DistinctIds;
    NextOfBatch(v.records, batch, i);
    NextIds(batch, i);
  }

  lemma NoRows(v: Store, batch: seq<Pair>)
    ensures AfterRows(v, batch[..0]) == v
  {
    assert batch[..0] == [];
  }

  lemma NextIds(batch: seq<Pair>, i: nat)
    requires i < |batch|
    ensures IdsOf(batch[..i + 1]) == IdsOf(batch[..i]) + {batch[i].id}
  {
    assert batch[..i + 1] == batch[..i] + [batch[i]];
  }

  lemma NextLinked(first: nat, failed: seq<bool>, f: bool)
    ensures LinkedRows(first, failed + [f]) == LinkedRows(first, failed) + if f then {} else {first + |failed|}
  {
    var longer := failed + [f];
    forall j: nat | j < |failed|
      ensures longer[j] == failed[j]
    {
    }
    if !f {
      assert !longer[|failed|];
    }
  }

  /** A section adds as many rows as it deals with. */
  lemma RowsGrown(v: Store, batch: seq<Pair>, done: nat, sectionRows: nat, env: Env)
    requires done < |batch| && 0 < sectionRows
    ensures var p := OneSection(v, batch, done, sectionRows, env); p.store.rows - v.rows == p.next - done
    ensures OneSection(v, batch, done, sectionRows, env).store.maxRows == v.maxRows
  {
    hide GrownCount, Put, Kept, KeptIds;
  }

  /** The live rows below `r` have been copied, without a failure. */
  ghost predicate Copied(was: Snap, r: nat, s: Snap, env: Env) {
    && r <= |was.rows| && r <= |was.ids.labels| && Rebuilt(was, r, s) && |s.rows| == |LivePairs(was, r)|
    && forall i: nat | i < |s.rows| :: env.fault(i) == NoFault
  }

  lemma NothingCopied(was: Snap, env: Env)
    ensures Copied(was, 0, Snap(Ids(map[], [], 0), [], {}, {}), env)
  {
    RebuildStart(was);
    hide Rebuilt;
  }

  /** The next row is dead, or its id is free, and it is among the rows that may fail. */
  lemma CopyNext(was: Snap, r: nat, s: Snap, env: Env)
    requires Good(was) && r < |was.rows| && Copied(was, r, s, env)
    ensures r in was.marks ==> Copied(was, r + 1, s, env)
    ensures r !in was.marks ==>
              && r < |was.ids.labels| && Reservable(s.ids, was.ids.labels[r], false) && |s.rows| < INVALID_ROW
              && |s.rows| < |Records(was)|
              && (env.fault(|s.rows|) == NoFault ==>
                    Copied(was, r + 1, AfterInsert(s, was.ids.labels[r], was.rows[r], false), env))
  {
    hide Good, Records, Rebuilt, LivePairs;
    SnapShape(was);
    RebuildStep(was, r, s);
    LiveCount(was, r);
    if r in was.marks {
      RebuiltCount(was, r + 1, s);
    } else {
      RebuiltCount(was, r + 1, AfterInsert(s, was.ids.labels[r], was.rows[r], false));
    }
  }

  lemma AllCopied(was: Snap, s: Snap, env: Env)
    requires Good(was) && Copied(was, |was.rows|, s, env)
    ensures |was.rows| <= |was.ids.labels| && Rebuilt(was, |was.rows|, s)
    ensures forall i: nat | i < |Records(was)| :: env.fault(i) == NoFault
  {
    hide Good, Records, Rebuilt, LivePairs;
    SnapShape(was);
    AllLive(was);
  }

  /** As many rows are rebuilt as were live so far. */
  lemma RebuiltCount(was: Snap, n: nat, s: Snap)
    requires Good(was) && n <= |was.rows| && n <= |was.ids.labels| && Rebuilt(was, n, s)
    ensures |s.rows| == |LivePairs(was, n)|
  {
    hide Good, Put, Records, LivePairs;
  }

  lemma AllLive(was: Snap)
    requires Good(was)
    ensures |was.ids.labels| == |was.rows| && |LivePairs(was, |was.rows|)| == |Records(was)|
  {
    SnapShape(was);
    LiveCount(was, |was.rows|);
    EntriesInRange(was);
    EntriesAreRecords(was);
    assert RecordsBelow(was, |was.rows|) == Records(was);
  }

  lemma GrownNext(env: Env, from: nat, n: nat, want: nat)
    requires n < want
    ensures GrownCount(env, from, n, want)
         == if env.fault(from + n) != NoFault then n else if env.sliceEnds(from + n) then n + 1
            else GrownCount(env, from, n + 1, want)
    ensures GrownCount(env, from, want, want) == want && !GrowStops(env, from, want, want)
    ensures env.fault(from + n) != NoFault && (n == 0 || !env.sliceEnds(from + n - 1)) ==> GrowStops(env, from, n, want)
    ensures env.sliceEnds(from + n) ==> !GrowStops(env, from, n + 1, want)
  {
  }

  lemma CleaningShape(start: Snap, s: Snap, ps: seq<Pair>, ts: seq<Reservation>, failed: seq<bool>, i: nat)
    requires Cleaning(start, s, ps, ts, failed, i)
    ensures |ps| == |ts| == |failed| && Good(s)
  {
  }

  lemma GrowNext(start: Snap, s: Snap, batch: seq<Pair>, from: nat, ts: seq<Reservation>, upsert: bool, dim: nat)
    requires from + |ts| < |batch| && DistinctIds(batch) && Growing(start, s, batch[from..from + |ts|], ts)
    requires Good(start) && Insertable(batch, from, Records(start), upsert, dim)
    ensures batch[from + |ts|].id != INVALID_EXTERNAL && |batch[from + |ts|].row| == dim
    ensures Good(s) && DistinctIds(batch[from..from + |ts|] + [batch[from + |ts|]])
    ensures upsert || batch[from + |ts|].id !in Records(s)
  {
    hide Sound, Put, Kept, Records, AllGrown, OnlyNewRows, Extends, Settled;
    var ps, p := batch[from..from + |ts|], batch[from + |ts|];
    assert ps + [p] == batch[from..from + |ts| + 1];
    forall q <- ps
      ensures q.id != p.id
    {
    }
    OthersUntouched(Records(start), ps, Zeros(|ps|), p.id);
    NothingAbandoned(ps, Zeros(|ps|));
  }

  lemma NextOfBatch(m: map<ExternalId, Row>, batch: seq<Pair>, i: nat)
    requires i < |batch| && DistinctIds(batch)
    ensures Put(m, batch[..i + 1]) == Put(m, batch[..i])[batch[i].id := batch[i].row]
    ensures batch[i].id in Put(m, batch[..i]) <==> batch[i].id in m
  {
    assert batch[..i + 1][..i] == batch[..i];
    NothingAbandoned(batch[..i], Zeros(i));
    OthersUntouched(m, batch[..i], Zeros(i), batch[i].id);
  }

  lemma NothingPending(s: Snap)
    requires Good(s)
    ensures forall k <- s.ids.entries :: !Pending(s.ids, k) && Visible(s.ids, k)
  {
  }

  lemma InsertFacts(s: Snap, k: ExternalId, upsert: bool)
    requires Good(s) && Reservable(s.ids, k, upsert)
    ensures |s.ids.labels| == |s.rows|
    ensures Rollback(Reserve(s.ids, k), Ticket(s.ids, k)) == s.ids
    ensures Reserve(s.ids, k).labels == s.ids.labels && Holds(Reserve(s.ids, k), Ticket(s.ids, k))
    ensures forall r <- Replaced(Ticket(s.ids, k)) :: r < |s.rows|
  {
    RollbackUndoesReserve(s.ids, k, upsert);
  }

  lemma EraseFacts(s: Snap, k: ExternalId)
    requires Good(s) && Visible(s.ids, k)
    ensures s.ids.entries[k].current < |s.rows|
  {
  }

  lemma GoodIsConsistent(s: Snap)
    requires Good(s)
    ensures Consistent(s.ids)
  {
  }
}
