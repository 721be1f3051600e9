/** Every insertion ends: it fails only where its search may, and is done after boundedly many steps of its own. */
module LinkProgress {
  import opened LinkProtocol
  import opened LinkSafety
  import opened LinkTheorems
  import opened LinkHistory
  import opened OrphanRepair

  /** The search is over and the insertion is under way. */
  predicate Committed(t: Thread) {
    t.pc.Write? || t.pc.Link? || t.pc.Repair? || t.pc.Store? || t.pc.Finish?
  }

  /** What is left to do: phases, levels of the phase, stages of the level, stores. */
  datatype Rank = Rank(phase: nat, levels: int, stages: int, stores: int)

  function Candidates(t: Thread, l: nat): int {
    if l < |t.plan.cands| then |t.plan.cands[l]| else 0
  }

  function Picks(t: Thread, l: nat): int {
    if l < |t.plan.picks| then |t.plan.picks[l]| else 0
  }

  function RankOf(t: Thread): Rank {
    match t.pc
    case Write(l, n) => Rank(3, |t.plan.picks| - l, Picks(t, l) - n, 0)
    case Link(l, j, _) => Rank(2, |t.plan.picks| - l, 2 * Candidates(t, l) + 2 + 2 * (Picks(t, l) - j), 0)
    case Repair(l, c) => Rank(2, |t.plan.picks| - l, 2 * (Candidates(t, l) - c) + 1, 0)
    case Store(job, l, j, _, repairing) =>
      Rank(2, |t.plan.picks| - l,
           if repairing then 2 * (Candidates(t, l) - j) else 2 * Candidates(t, l) + 1 + 2 * (Picks(t, l) - j),
           |job.ids| - job.next)
    case Finish => Rank(1, 0, 0, 0)
    case _ => Rank(0, 0, 0, 0)
  }

  predicate Bounded(r: Rank) {
    r.levels >= 0 && r.stages >= 0 && r.stores >= 0
  }

  /** Lexicographically less. */
  predicate Below(r: Rank, q: Rank) {
    || r.phase < q.phase
    || (r.phase == q.phase && (r.levels < q.levels
        || (r.levels == q.levels && (r.stages < q.stages || (r.stages == q.stages && r.stores < q.stores)))))
  }

  /** A step that brings an insertion closer to its end. */
  predicate Closer(t: Thread, t': Thread) {
    && Bounded(RankOf(t)) && Bounded(RankOf(t')) && Below(RankOf(t'), RankOf(t))
    && (Committed(t') || t'.pc.Done?)
  }

  lemma WriteSlotCloser(cfg: Config, s: State, x: Id)
    requires Inv(cfg, s) && CanWriteSlot(s, x)
    ensures Closer(s.threads[x], DoWriteSlot(s, x).threads[x])
  {
    hide Inv, PlanOk, WalkOk, OwnLists, EntryOk, SelfTracked, PutSlot;
    ThreadFacts(cfg, s, x);
  }

  lemma WriteCountCloser(cfg: Config, s: State, x: Id)
    requires Inv(cfg, s) && CanWriteCount(s, x)
    ensures Closer(s.threads[x], DoWriteCount(s, x).threads[x])
  {
    hide Inv, PlanOk, WalkOk, OwnLists, EntryOk, SelfTracked, PutSlot;
    ThreadFacts(cfg, s, x);
  }

  lemma StartStoreCloser(cfg: Config, s: State, x: Id, job: Job)
    requires Inv(cfg, s) && (AtPick(s, x) || AtCandidate(s, x)) && job.next <= |job.ids|
    ensures Closer(s.threads[x], LinkProtocol.StartStore(s, x, job).threads[x])
  {
    hide Inv, PlanOk, WalkOk, OwnLists, EntryOk, SelfTracked, PutSlot;
    ThreadFacts(cfg, s, x);
  }

  lemma EndLevelCloser(cfg: Config, s: State, x: Id)
    requires Inv(cfg, s) && CanEndLevel(s, x)
    ensures Closer(s.threads[x], DoEndLevel(cfg, s, x).threads[x])
  {
    hide Inv, PlanOk, WalkOk, OwnLists, EntryOk, SelfTracked, PutSlot;
    ThreadFacts(cfg, s, x);
  }

  lemma RepairSkipCloser(cfg: Config, s: State, x: Id)
    requires Inv(cfg, s) && CanRepairSkip(cfg, s, x)
    ensures Closer(s.threads[x], DoRepairSkip(cfg, s, x).threads[x])
  {
    hide Inv, PlanOk, WalkOk, OwnLists, EntryOk, SelfTracked, PutSlot;
    ThreadFacts(cfg, s, x);
  }

  lemma RepairEndCloser(cfg: Config, s: State, x: Id)
    requires Inv(cfg, s) && CanRepairEnd(s, x)
    ensures Closer(s.threads[x], DoRepairEnd(s, x).threads[x])
  {
    hide Inv, PlanOk, WalkOk, OwnLists, EntryOk, SelfTracked, PutSlot;
    ThreadFacts(cfg, s, x);
  }

  lemma StoreSlotCloser(cfg: Config, s: State, x: Id)
    requires Inv(cfg, s) && CanStoreSlot(s, x)
    ensures Closer(s.threads[x], DoStoreSlot(s, x).threads[x])
  {
    hide Inv, PlanOk, WalkOk, OwnLists, EntryOk, SelfTracked, PutSlot;
    ThreadFacts(cfg, s, x);
  }

  lemma StoreCountCloser(cfg: Config, s: State, x: Id)
    requires Inv(cfg, s) && CanStoreCount(s, x)
    ensures Closer(s.threads[x], DoStoreCount(s, x).threads[x])
  {
    hide Inv, PlanOk, WalkOk, OwnLists, EntryOk, SelfTracked, PutSlot;
    ThreadFacts(cfg, s, x);
  }

  lemma PublishCloser(cfg: Config, s: State, x: Id)
    requires Inv(cfg, s) && CanPublish(s, x)
    ensures Closer(s.threads[x], DoPublish(s, x).threads[x])
  {
    hide Inv, PlanOk, WalkOk, OwnLists, EntryOk, SelfTracked, PutSlot;
    ThreadFacts(cfg, s, x);
  }

  /** Every own step of a committed insertion brings it closer to its end, which is to be done; it cannot fail any more. */
  lemma OwnStepsCount(cfg: Config, s: State, a: Action, x: Id)
    requires Inv(cfg, s) && Enabled(cfg, s, a) && x < |s.threads| && Committed(s.threads[x])
    requires !a.Grow? && !a.QueryStart? && !a.QueryVisit? && !a.QueryEnd? && a.x == x
    ensures x < |Apply(cfg, s, a).threads|
    ensures Bounded(RankOf(s.threads[x])) && Bounded(RankOf(Apply(cfg, s, a).threads[x]))
    ensures Below(RankOf(Apply(cfg, s, a).threads[x]), RankOf(s.threads[x]))
    ensures Committed(Apply(cfg, s, a).threads[x]) || Apply(cfg, s, a).threads[x].pc.Done?
  {
    hide Inv, RankOf, Below, Bounded, Reselection, PlanFrom;
    match a
    case WriteSlot(_) => WriteSlotCloser(cfg, s, x);
    case WriteCount(_) => WriteCountCloser(cfg, s, x);
    case AppendLink(_) => StartStoreCloser(cfg, s, x, LinkProtocol.AppendJob(s, x, NextTarget(s.threads[x])));
    case ShrinkLink(_, ids) => StartStoreCloser(cfg, s, x, Job(NextTarget(s.threads[x]), ids, 0));
    case RepairAppend(_) => StartStoreCloser(cfg, s, x, LinkProtocol.AppendJob(s, x, NextTarget(s.threads[x])));
    case EndLevel(_) => EndLevelCloser(cfg, s, x);
    case RepairSkip(_) => RepairSkipCloser(cfg, s, x);
    case RepairEnd(_) => RepairEndCloser(cfg, s, x);
    case StoreSlot(_) => StoreSlotCloser(cfg, s, x);
    case StoreCount(_) => StoreCountCloser(cfg, s, x);
    case Publish(_) => PublishCloser(cfg, s, x);
  }

  /** In the run, the search of insertion `x` failed. */
  predicate FailedIn(run: seq<Action>, x: Id) {
    Fail(x) in run
  }

  /** An insertion fails only where its search runs out of memory. */
  lemma {:induction false} OnlySearchFails(cfg: Config, run: seq<Action>, s: State, x: Id)
    requires Reaches(cfg, run, s) && x < |s.threads| && s.threads[x].pc.Failed?
    ensures FailedIn(run, x)
  {
    hide Inv, Enabled, Apply;
    if run != [] {
      var s0 :| Reaches(cfg, run[1..], s0) && Step(cfg, s0, run[0], s);
      RunKeepsInv(cfg, run[1..], s0);
      NewThreadIsFresh(cfg, s0, run[0], x);
      if x < |s0.threads| {
        if s0.threads[x].pc.Failed? {
          OnlySearchFails(cfg, run[1..], s0, x);
        } else {
          FailsNow(cfg, s0, run[0], x);
        }
      }
    }
  }

  lemma FailsNow(cfg: Config, s: State, a: Action, x: Id)
    requires Inv(cfg, s) && Enabled(cfg, s, a) && x < |s.threads| && !s.threads[x].pc.Failed?
    requires x < |Apply(cfg, s, a).threads| && Apply(cfg, s, a).threads[x].pc.Failed?
    ensures a == Fail(x)
  {
    hide Inv, PlanFrom, Reselection, WalkEnabled, WalkApply;
    OnlyMover(cfg, s, a, x);
  }
}
