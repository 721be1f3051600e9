/** What whole runs of collection operations make of the records, and which rows they leave unlinked. */
module CollectionRuns {
  import opened IdMaps
  import opened Collections
  import opened CollectionStates

  // ----- concurrent batches -----

  /** Where the section starts whose links never ran, or the end of what the batch has dealt with. */
  function LostFrom(batch: seq<Pair>, done: nat, sectionRows: nat, env: Env): nat
    requires done <= |batch| && 0 < sectionRows
    decreases |batch| - done
  {
    if done == |batch| then done
    else
      var count := SectionCount(batch, done, sectionRows, env);
      if Lost(env, done, count) then done
      else if OneSection(Nothing, batch, done, sectionRows, env).ok then LostFrom(batch, done + count, sectionRows, env)
      else done + count
  }

  const Nothing := Store(map[], {}, 0, 0)

  /** How far a section gets, and whether the batch goes on, does not depend on the store. */
  lemma SameProgress(v: Store, batch: seq<Pair>, done: nat, sectionRows: nat, env: Env)
    requires done < |batch| && 0 < sectionRows
    ensures var p, q := OneSection(v, batch, done, sectionRows, env), OneSection(Nothing, batch, done, sectionRows, env);
            p.next == q.next == done + SectionCount(batch, done, sectionRows, env) && p.ok == q.ok
  {
    hide Put, Kept, KeptIds, GrownCount;
  }

  lemma FlagsJoin(env: Env, from: nat, a: nat, b: nat)
    ensures Flags(env, from, a) + Flags(env, from + a, b) == Flags(env, from, a + b)
  {
  }

  lemma KeptIdsJoin(ps: seq<Pair>, f: seq<bool>, qs: seq<Pair>, g: seq<bool>)
    requires |ps| == |f| && |qs| == |g|
    ensures KeptIds(ps + qs, f + g) == KeptIds(ps, f) + KeptIds(qs, g)
  {
    var all, flags := ps + qs, f + g;
    forall k | k in KeptIds(qs, g)
      ensures k in KeptIds(all, flags)
    {
      var j: nat :| j < |qs| && !g[j] && qs[j].id == k;
      assert all[|ps| + j] == qs[j] && !flags[|ps| + j];
    }
    forall k | k in KeptIds(ps, f)
      ensures k in KeptIds(all, flags)
    {
      var j: nat :| j < |ps| && !f[j] && ps[j].id == k;
      assert all[j] == ps[j] && !flags[j];
    }
    forall k | k in KeptIds(all, flags)
      ensures k in KeptIds(ps, f) + KeptIds(qs, g)
    {
      var j: nat :| j < |all| && !flags[j] && all[j].id == k;
      if j >= |ps| {
        assert qs[j - |ps|] == all[j];
      }
    }
  }

  /** What the rows of a batch from `done` to `m` were put with their links run, and those from `m` to `n` without. */
  ghost predicate Outcome(v: Store, batch: seq<Pair>, done: nat, m: nat, n: nat, env: Env, w: Store)
    requires done <= m <= n <= |batch|
  {
    var flags := Flags(env, done, m - done);
    && w.records == Put(Put(v.records, Kept(batch[done..m], flags)), batch[m..n])
    && w.unlinked == v.unlinked - KeptIds(batch[done..m], flags) + IdsOf(batch[m..n])
    && w.rows == v.rows + n - done && w.maxRows == v.maxRows
  }

  lemma JoinedRows(batch: seq<Pair>, done: nat, mid: nat, m: nat, env: Env)
    requires done <= mid <= m <= |batch|
    ensures var a, b, all := Flags(env, done, mid - done), Flags(env, mid, m - mid), Flags(env, done, m - done);
            && Kept(batch[done..m], all) == Kept(batch[done..mid], a) + Kept(batch[mid..m], b)
            && KeptIds(batch[done..m], all) == KeptIds(batch[done..mid], a) + KeptIds(batch[mid..m], b)
  {
    hide Kept, KeptIds;
    var a, b := Flags(env, done, mid - done), Flags(env, mid, m - mid);
    FlagsJoin(env, done, mid - done, m - mid);
    assert batch[done..m] == batch[done..mid] + batch[mid..m];
    hide Flags;
    KeptAppends(batch[done..mid], a, batch[mid..m], b);
    KeptIdsJoin(batch[done..mid], a, batch[mid..m], b);
  }

  /** A section, and then the rest. */
  lemma OutcomeJoins(v: Store, w: Store, batch: seq<Pair>, done: nat, mid: nat, m: nat, n: nat, env: Env, z: Store)
    requires done <= mid <= m <= n <= |batch|
    requires w == AfterSection(v, batch[done..mid], Flags(env, done, mid - done)) && Outcome(w, batch, mid, m, n, env, z)
    ensures Outcome(v, batch, done, m, n, env, z)
  {
    hide Put, Kept, KeptIds, IdsOf, Flags;
    JoinedRows(batch, done, mid, m, env);
    PutAppends(v.records, Kept(batch[done..mid], Flags(env, done, mid - done)), Kept(batch[mid..m], Flags(env, mid, m - mid)));
  }

  lemma NothingLost(v: Store, batch: seq<Pair>, done: nat, n: nat, env: Env)
    requires done <= n <= |batch|
    ensures Outcome(v, batch, done, n, n, env, AfterSection(v, batch[done..n], Flags(env, done, n - done)))
  {
    hide Kept, KeptIds, Flags;
    assert batch[n..n] == [];
  }

  lemma AllLost(v: Store, batch: seq<Pair>, done: nat, n: nat, env: Env)
    requires done <= n <= |batch|
    ensures Outcome(v, batch, done, done, n, env, AfterLostSection(v, batch[done..n]))
  {
    assert batch[done..done] == [];
  }

  /**
    * A concurrent batch puts its rows in order, but for those whose link failed, up to the first section that fails;
    * only the rows of a section whose parallel loop could not start are left unlinked, and that section is the last.
    */
  lemma {:induction false} SectionsMean(v: Store, batch: seq<Pair>, done: nat, sectionRows: nat, env: Env)
    requires done <= |batch| && 0 < sectionRows
    ensures var p, m := AllSections(v, batch, done, sectionRows, env), LostFrom(batch, done, sectionRows, env);
            && done <= m <= p.next <= |batch|
            && Outcome(v, batch, done, m, p.next, env, p.store)
            && (m < p.next ==> !p.ok && Lost(env, m, p.next - m))
    decreases |batch| - done
  {
    hide Outcome, AfterSection, AfterLostSection, GrownCount;
    if done == |batch| {
      NoSections(v, batch, env);
    } else {
      var count := SectionCount(batch, done, sectionRows, env);
      var p := OneSection(v, batch, done, sectionRows, env);
      SameProgress(v, batch, done, sectionRows, env);
      if Lost(env, done, count) && !env.prepareFails(done) {
        AllLost(v, batch, done, done + count, env);
      } else {
        NothingLost(v, batch, done, done + count, env);
        PreparedOrNothing(v, batch, done, env);
        if p.ok {
          SectionsMean(p.store, batch, p.next, sectionRows, env);
          OutcomeJoins(v, p.store, batch, done, p.next, LostFrom(batch, p.next, sectionRows, env),
                       AllSections(v, batch, done, sectionRows, env).next, env,
                       AllSections(v, batch, done, sectionRows, env).store);
        }
      }
    }
  }

  lemma NoSections(v: Store, batch: seq<Pair>, env: Env)
    ensures Outcome(v, batch, |batch|, |batch|, |batch|, env, v)
  {
    PreparedOrNothing(v, batch, |batch|, env);
    NothingLost(v, batch, |batch|, |batch|, env);
  }

  lemma PreparedOrNothing(v: Store, batch: seq<Pair>, done: nat, env: Env)
    requires done <= |batch|
    ensures AfterSection(v, batch[done..done], Flags(env, done, 0)) == v
  {
    assert batch[done..done] == [];
    assert Flags(env, done, 0) == [];
    assert KeptIds([], []) == {};
  }

  // ----- when a concurrent batch succeeds -----

  /** How many rows a section of at most `want` takes when no row fails: its time is up, or it is full; it has `n`. */
  function Slice(env: Env, from: nat, n: nat, want: nat): (j: nat)
    requires 1 <= n <= want
    ensures n <= j <= want && (j == want || env.sliceEnds(from + j - 1))
    ensures forall i: nat :: from + n - 1 <= i < from + j - 1 ==> !env.sliceEnds(i)
    decreases want - n
  {
    if n == want || env.sliceEnds(from + n - 1) then n else Slice(env, from, n + 1, want)
  }

  /** The rows the section from `done` on takes when no row fails. */
  function SliceFrom(batch: seq<Pair>, done: nat, sectionRows: nat, env: Env): (j: nat)
    requires done < |batch| && 0 < sectionRows
    ensures 1 <= j <= sectionRows && done + j <= |batch|
  {
    Slice(env, done, 1, if |batch| - done < sectionRows then |batch| - done else sectionRows)
  }

  /** Nothing fails in a section of `j` rows: not its preparation, no row, no link, not its parallel loop. */
  ghost predicate Clean(env: Env, from: nat, j: nat) {
    && !env.prepareFails(from)
    && (forall i: nat :: from <= i < from + j ==> env.fault(i) == NoFault)
    && (forall i: nat :: from <= i < from + j ==> !env.linkFails(i))
    && !(env.pooled && j > 1 && env.shareFails(from))
  }

  /** Nothing fails in any section from row `done` on. */
  ghost predicate Undisturbed(batch: seq<Pair>, done: nat, sectionRows: nat, env: Env)
    requires done <= |batch| && 0 < sectionRows
    decreases |batch| - done
  {
    done < |batch| ==>
      var j := SliceFrom(batch, done, sectionRows, env);
      Clean(env, done, j) && Undisturbed(batch, done + j, sectionRows, env)
  }

  /** Where the batch stops: at the end, or in the first section in which something fails, before its first failing row. */
  ghost function StopsAt(batch: seq<Pair>, done: nat, sectionRows: nat, env: Env): (n: nat)
    requires done <= |batch| && 0 < sectionRows
    decreases |batch| - done
  {
    if done == |batch| then done
    else
      var j := SliceFrom(batch, done, sectionRows, env);
      if Clean(env, done, j) then StopsAt(batch, done + j, sectionRows, env)
      else if env.prepareFails(done) then done
      else FirstFault(env, done, done + j)
  }

  /** A section grows up to its first failing row. */
  lemma {:induction false} GrowsToFault(env: Env, from: nat, n: nat, want: nat)
    requires n < want
    ensures from + n <= from + Slice(env, from, n + 1, want)
    ensures from + GrownCount(env, from, n, want) == FirstFault(env, from + n, from + Slice(env, from, n + 1, want))
    decreases want - n
  {
    if env.fault(from + n) == NoFault && !env.sliceEnds(from + n) && n + 1 < want {
      GrowsToFault(env, from, n + 1, want);
    }
  }

  lemma {:induction false} FaultAt(env: Env, i: nat, n: nat)
    requires i <= n
    ensures FirstFault(env, i, n) < n ==> env.fault(FirstFault(env, i, n)) != NoFault
    decreases n - i
  {
    if i < n { FaultAt(env, i + 1, n); }
  }

  lemma FlagsMean(env: Env, from: nat, n: nat)
    ensures true in Flags(env, from, n) <==> exists i: nat :: from <= i < from + n && env.linkFails(i)
  {
    if i: nat :| from <= i < from + n && env.linkFails(i) {
      assert Flags(env, from, n)[i - from];
    }
  }

  /** A section goes on exactly when nothing fails in it, and otherwise ends before its first failing row. */
  lemma SectionIff(v: Store, batch: seq<Pair>, done: nat, sectionRows: nat, env: Env)
    requires done < |batch| && 0 < sectionRows
    ensures var p, j := OneSection(v, batch, done, sectionRows, env), SliceFrom(batch, done, sectionRows, env);
            && (p.ok <==> Clean(env, done, j))
            && p.next == if env.prepareFails(done) then done else FirstFault(env, done, done + j)
  {
    hide GrownCount, AfterSection, AfterLostSection, Flags, FirstFault;
    var want, j := Wanted(batch, done, sectionRows), SliceFrom(batch, done, sectionRows, env);
    GrowsToFault(env, done, 0, want);
    var count := GrownCount(env, done, 0, want);
    FlagsMean(env, done, count);
    FaultAt(env, done, done + j);
  }

  /** A concurrent batch succeeds exactly when nothing fails in any of its sections, and stops in the first that fails. */
  lemma {:induction false} BatchSucceedsIff(v: Store, batch: seq<Pair>, done: nat, sectionRows: nat, env: Env)
    requires done <= |batch| && 0 < sectionRows
    ensures var p := AllSections(v, batch, done, sectionRows, env);
            && (p.ok <==> Undisturbed(batch, done, sectionRows, env))
            && p.next == StopsAt(batch, done, sectionRows, env)
    decreases |batch| - done
  {
    hide OneSection, Clean;
    if done < |batch| {
      var p, j := OneSection(v, batch, done, sectionRows, env), SliceFrom(batch, done, sectionRows, env);
      SectionIff(v, batch, done, sectionRows, env);
      if Clean(env, done, j) {
        NoFaultBefore(env, done, j);
        BatchSucceedsIff(p.store, batch, done + j, sectionRows, env);
      }
    }
  }

  lemma NoFaultBefore(env: Env, from: nat, j: nat)
    requires Clean(env, from, j)
    ensures !env.prepareFails(from) && FirstFault(env, from, from + j) == from + j
  {
  }

  /** A batch that succeeds has put all its rows, as the row-at-a-time batch does. */
  lemma {:induction false} SuccessIsSequential(v: Store, batch: seq<Pair>, done: nat, sectionRows: nat, env: Env)
    requires done <= |batch| && 0 < sectionRows && AllSections(v, batch, done, sectionRows, env).ok
    ensures AllSections(v, batch, done, sectionRows, env).store == AfterRows(v, batch[done..])
    decreases |batch| - done
  {
    hide AfterSection, AfterRows, SectionCount;
    if done == |batch| {
      NoRows(v, batch);
      assert batch[done..] == batch[..0];
    } else {
      var p := OneSection(v, batch, done, sectionRows, env);
      SuccessIsSequential(p.store, batch, p.next, sectionRows, env);
      NothingDropped(v, batch[done..p.next], Flags(env, done, p.next - done));
      RowsJoin(v, batch[done..p.next], batch[p.next..]);
      assert batch[done..] == batch[done..p.next] + batch[p.next..];
    }
  }

  lemma {:induction false} NothingDropped(v: Store, ps: seq<Pair>, failed: seq<bool>)
    requires |ps| == |failed| && true !in failed
    ensures AfterSection(v, ps, failed) == AfterRows(v, ps)
  {
    hide Put;
    AllKept(ps, failed);
    assert KeptIds(ps, failed) == IdsOf(ps);
  }

  lemma {:induction false} AllKept(ps: seq<Pair>, failed: seq<bool>)
    requires |ps| == |failed| && true !in failed
    ensures Kept(ps, failed) == ps
  {
    if ps != [] {
      AllKept(ps[..|ps| - 1], failed[..|ps| - 1]);
      assert !failed[|ps| - 1];
    }
  }

  lemma RowsJoin(v: Store, ps: seq<Pair>, qs: seq<Pair>)
    ensures AfterRows(AfterRows(v, ps), qs) == AfterRows(v, ps + qs)
  {
    hide Put;
    PutAppends(v.records, ps, qs);
    forall k | k in IdsOf(ps) || k in IdsOf(qs) ensures k in IdsOf(ps + qs) {
      if k in IdsOf(ps) {
        var i: nat :| i < |ps| && ps[i].id == k;
        assert (ps + qs)[i].id == k;
      } else {
        var i: nat :| i < |qs| && qs[i].id == k;
        assert (ps + qs)[|ps| + i].id == k;
      }
    }
    assert IdsOf(ps + qs) == IdsOf(ps) + IdsOf(qs);
  }

  /** Without any failure every batch succeeds, however its time slices fall. */
  lemma {:induction false} NoFailureNoStop(batch: seq<Pair>, done: nat, sectionRows: nat, env: Env)
    requires done <= |batch| && 0 < sectionRows
    requires forall i: nat :: done <= i < |batch| ==>
      !env.prepareFails(i) && env.fault(i) == NoFault && !env.linkFails(i) && !(env.pooled && env.shareFails(i))
    ensures Undisturbed(batch, done, sectionRows, env)
    decreases |batch| - done
  {
    if done < |batch| {
      NoFailureNoStop(batch, done + SliceFrom(batch, done, sectionRows, env), sectionRows, env);
    }
  }

  // ----- which operations leave rows unlinked -----

  /** The operation is a concurrent batch that gets to a section whose parallel loop cannot start. */
  ghost predicate LosesRows(v: Store, op: Op, dim: nat)
    requires Runnable(op)
  {
    && op.ConcurrentBatchOp? && Passes(v, op.batch, op.upsert, dim, op.env)
    && LostFrom(op.batch, 0, op.sectionRows, op.env) < AllSections(v, op.batch, 0, op.sectionRows, op.env).next
  }

  /** An operation that loses nothing leaves no id unlinked that was linked; one that does leaves some unlinked. */
  lemma UnlinkedIff(v: Store, op: Op, dim: nat)
    requires Runnable(op)
    ensures !LosesRows(v, op, dim) ==> After(v, op, dim).unlinked <= v.unlinked
    ensures LosesRows(v, op, dim) ==> After(v, op, dim).unlinked != {}
    ensures v.unlinked == {} ==> (After(v, op, dim).unlinked == {} <==> !LosesRows(v, op, dim))
  {
    hide Put, Kept, KeptIds, AllSections, LostFrom, Passes, CanAdd, Compacts, Flags;
    if op.ConcurrentBatchOp? {
      SectionsMean(v, op.batch, 0, op.sectionRows, op.env);
      var m, n := LostFrom(op.batch, 0, op.sectionRows, op.env), AllSections(v, op.batch, 0, op.sectionRows, op.env).next;
      if m < n {
        assert op.batch[m..n][0].id in IdsOf(op.batch[m..n]);
      } else {
        assert op.batch[m..n] == [];
      }
    }
  }

  /** A run in which no operation loses rows ends with every row linked if it began so. */
  lemma {:induction false} StaysLinked(v: Store, ops: seq<Op>, dim: nat)
    requires forall op <- ops :: Runnable(op)
    requires v.unlinked == {}
    requires forall i: nat | i < |ops| :: !LosesRows(AfterAll(v, ops[..i], dim), ops[i], dim)
    ensures AfterAll(v, ops, dim).unlinked == {}
  {
    hide LosesRows, After;
    if ops != [] {
      var n := |ops| - 1;
      var front := ops[..n];
      forall i: nat | i < n
        ensures !LosesRows(AfterAll(v, front[..i], dim), front[i], dim)
      {
        assert front[..i] == ops[..i];
      }
      StaysLinked(v, front, dim);
      UnlinkedIff(AfterAll(v, front, dim), ops[n], dim);
    }
  }

  // ----- keys an operation does not name -----

  ghost predicate Names(op: Op, k: ExternalId) {
    match op
    case AddOp(id, _, _, _) => id == k
    case BatchOp(batch, _, _) => k in IdsOf(batch)
    case ConcurrentBatchOp(batch, _, _, _) => k in IdsOf(batch)
    case RemoveOp(id) => id == k
    case CompactOp(_) => false
  }

  /** Whatever fails, an id the operation does not name keeps its vector, and is not left unlinked by it. */
  lemma OthersKept(v: Store, op: Op, dim: nat, k: ExternalId)
    requires Runnable(op) && !Names(op, k)
    ensures var w := After(v, op, dim);
            && (k in w.records <==> k in v.records) && (k in v.records ==> w.records[k] == v.records[k])
            && (k in w.unlinked ==> k in v.unlinked)
  {
    hide Kept, KeptIds, AllSections, LostFrom, Passes, CanAdd, Compacts, Flags, FirstFault;
    match op
    case BatchOp(batch, upsert, env) =>
      PutOthers(v.records, batch[..FirstFault(env, 0, |batch|)], k);
    case ConcurrentBatchOp(batch, upsert, env, sectionRows) =>
      SectionsMean(v, batch, 0, sectionRows, env);
      var m, n := LostFrom(batch, 0, sectionRows, env), AllSections(v, batch, 0, sectionRows, env).next;
      var flags := Flags(env, 0, m);
      OthersUntouched(v.records, batch[0..m], flags, k);
      PutOthers(Put(v.records, Kept(batch[0..m], flags)), batch[m..n], k);
    case _ =>
  }

  lemma {:induction false} PutOthers(m: map<ExternalId, Row>, ps: seq<Pair>, k: ExternalId)
    requires k !in IdsOf(ps)
    ensures (k in Put(m, ps) <==> k in m) && (k in m ==> Put(m, ps)[k] == m[k])
  {
    if ps != [] {
      PutOthers(m, ps[..|ps| - 1], k);
    }
  }

  // ----- an example -----

  /** Two new rows, shared out on a pool that cannot allocate its shared block. */
  function NoSharedBlock(): Env {
    Env(_ => NoFault, false, _ => false, _ => false, _ => false, true, _ => true)
  }

  /** The batch fails, its rows are there for readers, and no search can reach them. */
  lemma LostBatchExample()
    ensures var batch, v := [Pair(1, []), Pair(2, [])], Store(map[], {}, 0, 2);
            var w := After(v, ConcurrentBatchOp(batch, false, NoSharedBlock(), 64), 0);
            && Passes(v, batch, false, 0, NoSharedBlock()) && !AllSections(v, batch, 0, 64, NoSharedBlock()).ok
            && w == Store(map[1 := [], 2 := []], {1, 2}, 2, 2)
  {
    var batch, v, env := [Pair(1, []), Pair(2, [])], Store(map[], {}, 0, 2), NoSharedBlock();
    assert GrownCount(env, 0, 2, 2) == 2 && GrownCount(env, 0, 1, 2) == 2 && GrownCount(env, 0, 0, 2) == 2;
    assert batch[0..2] == batch;
    assert batch[..1] == [Pair(1, [])] && batch[..1][..0] == [];
    assert Put(map[], batch[..1]) == map[1 := []];
    assert Put(map[], batch) == map[1 := [], 2 := []];
    assert batch[0].id in IdsOf(batch) && batch[1].id in IdsOf(batch);
    assert IdsOf(batch) == {1, 2};
  }
}
