/** Orphan repair over whole runs: an insertion that no neighbour kept tries every candidate, and how
    many levels an insertion links on. */
module OrphanRepair {
  import opened LinkProtocol
  import opened LinkSafety
  import opened LinkTheorems
  import opened LinkHistory

  /** In the run, insertion `x` found list `k` without room, with the stripe of `k` free for it. */
  ghost predicate FoundFull(cfg: Config, run: seq<Action>, x: Id, k: Key) {
    && run != []
    && (FoundFull(cfg, run[1..], x, k)
        || exists s0 :: Reaches(cfg, run[1..], s0) && FindsFull(cfg, s0, run[0], x, k))
  }

  ghost predicate FindsFull(cfg: Config, s: State, a: Action, x: Id, k: Key) {
    && a == RepairSkip(x) && Enabled(cfg, s, a) && NextTarget(s.threads[x]) == k
    && k in s.lists && k.node !in s.stripes && s.lists[k].count >= Capacity(cfg, k.lvl)
  }

  /** The insertion has left level `l` behind. */
  predicate PastLevel(t: Thread, l: nat) {
    match t.pc
    case Link(l', _, _) => l < l'
    case Store(_, l', _, _, _) => l < l'
    case Repair(l', _) => l < l'
    case Finish => true
    case Done => true
    case _ => false
  }

  /** The insertion decided to join some list of level `l`. */
  ghost predicate Joined(t: Thread, l: nat) {
    exists k :: k in t.placed && k.lvl == l
  }

  /** The first `n` candidates of level `l` were all found without room. */
  ghost predicate AllFull(cfg: Config, run: seq<Action>, t: Thread, x: Id, l: nat, n: nat)
    requires l < |t.plan.cands| && n <= |t.plan.cands[l]|
  {
    forall j :: 0 <= j < n ==> FoundFull(cfg, run, x, Key(t.plan.cands[l][j], l))
  }

  /** What an insertion knows about the level it is on, and what it leaves behind. */
  ghost predicate Tracks(cfg: Config, run: seq<Action>, t: Thread, x: Id) {
    && Standing(cfg, run, t, x)
    && (cfg.repairOrphans ==> forall l: nat :: PastLevel(t, l) && l < |t.plan.cands| ==>
          Joined(t, l) || AllFull(cfg, run, t, x, l, |t.plan.cands[l]|))
  }

  ghost predicate Standing(cfg: Config, run: seq<Action>, t: Thread, x: Id) {
    match t.pc
    case Link(l, _, hits) => hits > 0 ==> Joined(t, l)
    case Store(job, l, _, hits, repairing) =>
      (hits > 0 ==> Joined(t, l)) && (repairing ==> cfg.repairOrphans && x in job.ids)
    case Repair(l, c) =>
      cfg.repairOrphans && l < |t.plan.cands| && c <= |t.plan.cands[l]| && AllFull(cfg, run, t, x, l, c)
    case _ => true
  }

  lemma LongerRun(cfg: Config, run: seq<Action>, t: Thread, x: Id)
    requires run != [] && Tracks(cfg, run[1..], t, x)
    ensures Tracks(cfg, run, t, x)
  {
    forall l: nat, n: nat | l < |t.plan.cands| && n <= |t.plan.cands[l]| && AllFull(cfg, run[1..], t, x, l, n)
      ensures AllFull(cfg, run, t, x, l, n)
    {
    }
  }

  /** Going on to the next level is safe when the level that ends is settled. */
  lemma NextTracks(cfg: Config, run: seq<Action>, t: Thread, t': Thread, x: Id, l: nat)
    requires Tracks(cfg, run, t, x) && t'.plan == t.plan && t'.placed == t.placed
    requires |t.plan.cands| == |t.plan.picks| && l < |t.plan.cands|
    requires forall l': nat :: l' < l ==> PastLevel(t, l')
    requires t'.pc == NextLevel(t.plan, l)
    requires cfg.repairOrphans ==> Joined(t, l) || AllFull(cfg, run, t, x, l, |t.plan.cands[l]|)
    ensures Tracks(cfg, run, t', x)
  {
    hide FoundFull;
    forall l': nat | cfg.repairOrphans && PastLevel(t', l') && l' < |t'.plan.cands|
      ensures Joined(t', l') || AllFull(cfg, run, t', x, l', |t'.plan.cands[l']|)
    {
      assert l' < l ==> PastLevel(t, l');
      if l' < l && Joined(t, l') { StillJoined(t, t', l'); }
      if l' == l && Joined(t, l) { StillJoined(t, t', l); }
    }
  }

  lemma StillJoined(t: Thread, t': Thread, l: nat)
    requires Joined(t, l) && t.placed <= t'.placed
    ensures Joined(t', l)
  {
    var k :| k in t.placed && k.lvl == l;
    assert k in t'.placed;
  }

  lemma JoinedTarget(t: Thread, k: Key)
    requires k in t.placed
    ensures Joined(t, k.lvl)
  {
  }

  /** Steps that stay on a level. */
  lemma SameLevelTracks(cfg: Config, run: seq<Action>, t: Thread, t': Thread, x: Id)
    requires Tracks(cfg, run, t, x) && t'.plan == t.plan && t.placed <= t'.placed
    requires forall l: nat :: PastLevel(t', l) ==> PastLevel(t, l) || l >= |t.plan.cands|
    requires Standing(cfg, run, t', x)
    ensures Tracks(cfg, run, t', x)
  {
    hide FoundFull, Standing;
    forall l: nat | cfg.repairOrphans && PastLevel(t', l) && l < |t'.plan.cands|
      ensures Joined(t', l) || AllFull(cfg, run, t', x, l, |t'.plan.cands[l]|)
    {
      if Joined(t, l) { StillJoined(t, t', l); }
    }
  }

  lemma EndLevelTracks(cfg: Config, run: seq<Action>, s: State, x: Id)
    requires Inv(cfg, s) && CanEndLevel(s, x) && Tracks(cfg, run, s.threads[x], x)
    ensures Tracks(cfg, run, DoEndLevel(cfg, s, x).threads[x], x)
  {
    hide FoundFull, Tracks;
    ThreadFacts(cfg, s, x);
    var t, t' := s.threads[x], DoEndLevel(cfg, s, x).threads[x];
    StandsOn(cfg, run, t, x);
    if t'.pc.Repair? {
      SameLevelTracks(cfg, run, t, t', x);
    } else {
      NextTracks(cfg, run, t, t', x, t.pc.lvl);
    }
  }

  lemma StandsOn(cfg: Config, run: seq<Action>, t: Thread, x: Id)
    requires Tracks(cfg, run, t, x)
    ensures Standing(cfg, run, t, x)
  {
  }

  lemma RepairEndTracks(cfg: Config, run: seq<Action>, s: State, x: Id)
    requires Inv(cfg, s) && CanRepairEnd(s, x) && Tracks(cfg, run, s.threads[x], x)
    ensures Tracks(cfg, run, DoRepairEnd(s, x).threads[x], x)
  {
    hide FoundFull, Tracks;
    ThreadFacts(cfg, s, x);
    var t := s.threads[x];
    StandsOn(cfg, run, t, x);
    NextTracks(cfg, run, t, DoRepairEnd(s, x).threads[x], x, t.pc.lvl);
  }

  lemma RepairSkipTracks(cfg: Config, run: seq<Action>, s: State, x: Id)
    requires Inv(cfg, s) && CanRepairSkip(cfg, s, x) && Tracks(cfg, run, s.threads[x], x)
    requires FoundFull(cfg, run, x, NextTarget(s.threads[x]))
    ensures Tracks(cfg, run, DoRepairSkip(cfg, s, x).threads[x], x)
  {
    hide FoundFull, Tracks;
    var t := s.threads[x];
    StandsOn(cfg, run, t, x);
    SameLevelTracks(cfg, run, t, DoRepairSkip(cfg, s, x).threads[x], x);
  }

  lemma StartStoreTracks(cfg: Config, run: seq<Action>, s: State, x: Id, job: Job)
    requires Known(s, x) && (s.threads[x].pc.Link? || s.threads[x].pc.Repair?)
    requires s.threads[x].pc.Repair? ==> x in job.ids
    requires Tracks(cfg, run, s.threads[x], x)
    ensures Tracks(cfg, run, LinkProtocol.StartStore(s, x, job).threads[x], x)
  {
    hide FoundFull, Tracks;
    var t, t' := s.threads[x], LinkProtocol.StartStore(s, x, job).threads[x];
    StandsOn(cfg, run, t, x);
    if t.pc.Link? && t.pc.hits > 0 { StillJoined(t, t', t.pc.lvl); }
    SameLevelTracks(cfg, run, t, t', x);
  }

  lemma StoreCountTracks(cfg: Config, run: seq<Action>, s: State, x: Id)
    requires Inv(cfg, s) && CanStoreCount(s, x) && Tracks(cfg, run, s.threads[x], x)
    ensures Tracks(cfg, run, DoStoreCount(s, x).threads[x], x)
  {
    hide FoundFull, Tracks;
    ThreadFacts(cfg, s, x);
    var t, t' := s.threads[x], DoStoreCount(s, x).threads[x];
    StandsOn(cfg, run, t, x);
    if x in t.pc.job.ids { JoinedTarget(t, t.pc.job.target); }
    if t.pc.repairing {
      NextTracks(cfg, run, t, t', x, t.pc.lvl);
    } else {
      if Joined(t, t.pc.lvl) { StillJoined(t, t', t.pc.lvl); }
      SameLevelTracks(cfg, run, t, t', x);
    }
  }

  /** Each step of an insertion keeps track; a candidate is skipped only if it was found full. */
  lemma MoveTracks(cfg: Config, run: seq<Action>, s: State, a: Action, x: Id)
    requires Inv(cfg, s) && Enabled(cfg, s, a) && x < |s.threads| && Tracks(cfg, run, s.threads[x], x)
    requires !a.Grow? && !a.QueryStart? && !a.QueryVisit? && !a.QueryEnd? && a.x == x
    requires a.RepairSkip? ==> FoundFull(cfg, run, x, NextTarget(s.threads[x]))
    ensures x < |Apply(cfg, s, a).threads| && Tracks(cfg, run, Apply(cfg, s, a).threads[x], x)
  {
    hide FoundFull, Tracks, Standing, PastLevel, PlanFrom, Reselection, Inv;
    match a
    case AppendLink(_) => StartStoreTracks(cfg, run, s, x, LinkProtocol.AppendJob(s, x, NextTarget(s.threads[x])));
    case ShrinkLink(_, ids) => StartStoreTracks(cfg, run, s, x, Job(NextTarget(s.threads[x]), ids, 0));
    case RepairAppend(_) => StartStoreTracks(cfg, run, s, x, LinkProtocol.AppendJob(s, x, NextTarget(s.threads[x])));
    case EndLevel(_) => EndLevelTracks(cfg, run, s, x);
    case RepairSkip(_) => RepairSkipTracks(cfg, run, s, x);
    case RepairEnd(_) => RepairEndTracks(cfg, run, s, x);
    case StoreCount(_) => StoreCountTracks(cfg, run, s, x);
    case _ => EarlyTracks(cfg, run, s, a, x);
  }

  /** The steps before linking, the slot stores and the publication settle no level. */
  lemma EarlyTracks(cfg: Config, run: seq<Action>, s: State, a: Action, x: Id)
    requires Inv(cfg, s) && Enabled(cfg, s, a) && x < |s.threads| && Tracks(cfg, run, s.threads[x], x)
    requires a.LoadEntry? || a.TakeTop? || a.Visit? || a.Choose? || a.Fail? || a.WriteSlot? || a.WriteCount?
             || a.StoreSlot? || a.Publish?
    requires a.x == x
    ensures x < |Apply(cfg, s, a).threads| && Tracks(cfg, run, Apply(cfg, s, a).threads[x], x)
  {
    hide FoundFull, Tracks, PlanFrom, WalkOk, OwnLists, JobOk, EntryOk, PlanOk;
    ThreadFacts(cfg, s, x);
    var t := s.threads[x];
    StandsOn(cfg, run, t, x);
    match a
    case StoreSlot(_) => SameLevelTracks(cfg, run, t, DoStoreSlot(s, x).threads[x], x);
    case Publish(_) => SameLevelTracks(cfg, run, t, DoPublish(s, x).threads[x], x);
    case LoadEntry(_) => NothingPast(cfg, run, DoLoadEntry(s, x).threads[x], x);
    case TakeTop(_) => NothingPast(cfg, run, DoTakeTop(s, x).threads[x], x);
    case Visit(_, step) => NothingPast(cfg, run, DoVisit(s, x, step).threads[x], x);
    case Choose(_, plan) => NothingPast(cfg, run, DoChoose(s, x, plan).threads[x], x);
    case Fail(_) => NothingPast(cfg, run, DoFail(s, x).threads[x], x);
    case WriteSlot(_) => NothingPast(cfg, run, DoWriteSlot(s, x).threads[x], x);
    case WriteCount(_) => NothingPast(cfg, run, DoWriteCount(s, x).threads[x], x);
  }

  lemma NothingPast(cfg: Config, run: seq<Action>, t: Thread, x: Id)
    requires t.pc.WantTop? || t.pc.Search? || t.pc.Failed? || t.pc.Write? || t.pc == Link(0, 0, 0)
             || (t.pc.Finish? && t.plan == EmptyPlan)
    ensures Tracks(cfg, run, t, x)
  {
  }

  lemma {:induction false} RunTracks(cfg: Config, run: seq<Action>, s: State, x: Id)
    requires Reaches(cfg, run, s) && x < |s.threads|
    ensures Tracks(cfg, run, s.threads[x], x)
  {
    hide Tracks, Inv, Enabled, Apply, FoundFull;
    if run != [] {
      var s0 :| Reaches(cfg, run[1..], s0) && Step(cfg, s0, run[0], s);
      RunKeepsInv(cfg, run[1..], s0);
      NewThreadIsFresh(cfg, s0, run[0], x);
      if x >= |s0.threads| {
        NewTracks(cfg, run, x);
      } else {
        RunTracks(cfg, run[1..], s0, x);
        LongerRun(cfg, run, s0.threads[x], x);
        StepTracks(cfg, run, s0, s, x);
      }
    }
  }

  lemma NewTracks(cfg: Config, run: seq<Action>, x: Id)
    ensures Tracks(cfg, run, NewThread, x)
  {
  }

  lemma StepTracks(cfg: Config, run: seq<Action>, s0: State, s: State, x: Id)
    requires run != [] && Reaches(cfg, run[1..], s0) && Inv(cfg, s0) && Step(cfg, s0, run[0], s)
    requires x < |s0.threads| && Tracks(cfg, run, s0.threads[x], x)
    ensures x < |s.threads| && Tracks(cfg, run, s.threads[x], x)
  {
    hide Tracks, Inv, Apply, Reaches;
    var a := run[0];
    OnlyMover(cfg, s0, a, x);
    if s.threads[x] != s0.threads[x] {
      if a.RepairSkip? { SkipsFull(cfg, run, s0, x); }
      MoveTracks(cfg, run, s0, a, x);
    }
  }

  lemma SkipsFull(cfg: Config, run: seq<Action>, s0: State, x: Id)
    requires run != [] && run[0] == RepairSkip(x) && Reaches(cfg, run[1..], s0) && CanRepairSkip(cfg, s0, x)
    ensures FoundFull(cfg, run, x, NextTarget(s0.threads[x]))
  {
    assert FindsFull(cfg, s0, run[0], x, NextTarget(s0.threads[x]));
  }

  /** Orphan repair gives up on nothing that has room: with repair enabled, an insertion past a level
      has decided to join a list there, or has found each of its candidates there full, in a step of its
      own with the candidate's stripe free. */
  lemma LevelIsServed(cfg: Config, run: seq<Action>, s: State, x: Id, l: nat)
    requires Reaches(cfg, run, s) && x < |s.threads| && cfg.repairOrphans
    requires PastLevel(s.threads[x], l) && l < |s.threads[x].plan.cands|
    ensures
      || (exists k :: k in s.threads[x].placed && k.lvl == l)
      || (forall j :: 0 <= j < |s.threads[x].plan.cands[l]| ==>
            FoundFull(cfg, run, x, Key(s.threads[x].plan.cands[l][j], l)))
  {
    hide FoundFull;
    RunTracks(cfg, run, s, x);
  }

  /** Without repair enabled no insertion repairs. */
  lemma RepairIsOptional(cfg: Config, s: State, x: Id)
    requires Reachable(cfg, s) && x < |s.threads|
    requires s.threads[x].pc.Repair? || (s.threads[x].pc.Store? && s.threads[x].pc.repairing)
    ensures cfg.repairOrphans
  {
    var run :| Reaches(cfg, run, s);
    RunTracks(cfg, run, s, x);
  }

  // ---------------------------------------------------------------------------------------------
  // The levels an insertion links on
  // ---------------------------------------------------------------------------------------------

  function Lower(a: nat, b: nat): nat {
    if a < b then a else b
  }

  /** The plan of a thread past its search has a selection for every level up to the entry's. */
  predicate Covers(t: Thread, level: nat) {
    t.pc.Write? || Public(t) ==>
      if t.entry.Entry? then |t.plan.picks| == |t.plan.cands| == Lower(level, t.entry.lvl) + 1
      else t.plan == EmptyPlan
  }

  lemma MoveCovers(cfg: Config, s: State, a: Action, x: Id)
    requires Inv(cfg, s) && Enabled(cfg, s, a) && x < |s.threads| && Covers(s.threads[x], s.levels[x])
    requires !a.Grow? && !a.QueryStart? && !a.QueryVisit? && !a.QueryEnd? && a.x == x
    ensures x < |Apply(cfg, s, a).threads| == |Apply(cfg, s, a).levels|
    ensures Covers(Apply(cfg, s, a).threads[x], Apply(cfg, s, a).levels[x])
  {
    hide Inv, LinkProtocol.AppendJob, PutSlot, StripeFree, HasRoom, StripesOk, SelfTracked, CandidateOk;
    hide Reselection, WalkOk, OwnLists, JobOk, EntryOk, PlanOk, PlacedOk, ListOk, WalkEnabled, WalkApply;
    ThreadFacts(cfg, s, x);
  }

  /** A step changes the level of no row. */
  lemma LevelsStay(cfg: Config, s: State, a: Action, x: Id)
    requires Enabled(cfg, s, a) && x < |s.levels|
    ensures x < |Apply(cfg, s, a).levels| && Apply(cfg, s, a).levels[x] == s.levels[x]
  {
    hide PlanFrom, Reselection, WalkEnabled;
  }

  lemma {:induction false} RunCovers(cfg: Config, run: seq<Action>, s: State, x: Id)
    requires Reaches(cfg, run, s) && x < |s.threads|
    ensures |s.threads| == |s.levels| && Covers(s.threads[x], s.levels[x])
  {
    hide Covers, Enabled, Apply, ThreadOk, ListOk;
    RunKeepsInv(cfg, run, s);
    if run != [] {
      var s0 :| Reaches(cfg, run[1..], s0) && Step(cfg, s0, run[0], s);
      RunKeepsInv(cfg, run[1..], s0);
      NewThreadIsFresh(cfg, s0, run[0], x);
      if x >= |s0.threads| {
        NewCovers(s.levels[x]);
      } else {
        RunCovers(cfg, run[1..], s0, x);
        OnlyMover(cfg, s0, run[0], x);
        LevelsStay(cfg, s0, run[0], x);
        if s.threads[x] != s0.threads[x] { MoveCovers(cfg, s0, run[0], x); }
      }
    }
  }

  lemma NewCovers(level: nat)
    ensures Covers(NewThread, level)
  {
  }

  /** A linked row has a selection on each level up to the lower of its own and that of the entry point
      it started from; only a row that found no entry point links nowhere. */
  lemma EveryLevelIsLinked(cfg: Config, s: State, x: Id)
    requires Reachable(cfg, s) && x < |s.threads| && (s.threads[x].pc.Write? || Public(s.threads[x]))
    ensures x < |s.levels|
    ensures s.threads[x].entry.Entry? ==>
      |s.threads[x].plan.picks| == |s.threads[x].plan.cands| == Lower(s.levels[x], s.threads[x].entry.lvl) + 1
    ensures s.threads[x].entry.NoEntry? ==> s.threads[x].plan == EmptyPlan
  {
    var run :| Reaches(cfg, run, s);
    RunCovers(cfg, run, s, x);
  }
}
