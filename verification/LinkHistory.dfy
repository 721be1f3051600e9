/** What the insertion protocol does to a list, and what every finished insertion has done. */
module LinkHistory {
  import opened LinkProtocol
  import opened LinkSafety
  import opened LinkTheorems

  // ---------------------------------------------------------------------------------------------
  // Who changes a list, and to what
  // ---------------------------------------------------------------------------------------------

  /** A list that already existed changes only by its owner before publication or by the holder of
      the stripe, who decided what it becomes when it took the stripe. */
  lemma OnlyHolderWrites(cfg: Config, s: State, a: Action, k: Key)
    requires Reachable(cfg, s) && Enabled(cfg, s, a) && k in s.lists
    requires k in Apply(cfg, s, a).lists ==> Apply(cfg, s, a).lists[k] != s.lists[k]
    ensures a.WriteSlot? || a.WriteCount? || a.StoreSlot? || a.StoreCount?
    ensures a.x < |s.threads|
    ensures a.WriteSlot? || a.WriteCount? ==> k.node == a.x && !Public(s.threads[a.x])
    ensures a.StoreSlot? || a.StoreCount? ==>
      && s.threads[a.x].pc.Store? && s.threads[a.x].pc.job.target == k
      && k.node in s.stripes && s.stripes[k.node] == a.x
  {
    hide PlanOk; hide ListOk; hide WalkOk; hide PlacedOk; hide EntryOk; hide OwnLists; hide SelfTracked; hide PlanFrom;
    hide Reachable;
    ReachableInv(cfg, s);
    if a.StoreSlot? || a.StoreCount? { ThreadFacts(cfg, s, a.x); }
  }

  /** When the count of a rewritten list is stored, readers of the new count see exactly the ids
      that were decided under the stripe, and the stripe is free. */
  lemma RewriteDelivers(cfg: Config, s: State, x: Id)
    requires Reachable(cfg, s) && CanStoreCount(s, x)
    ensures var job := s.threads[x].pc.job;
      var s' := DoStoreCount(s, x);
      && job.target in s'.lists
      && s'.lists[job.target].count <= |s'.lists[job.target].slots|
      && s'.lists[job.target].slots[..s'.lists[job.target].count] == job.ids
      && job.target.node !in s'.stripes
  {
    ReachableInv(cfg, s);
    ThreadFacts(cfg, s, x);
    var job := s.threads[x].pc.job;
    assert job.ids[..job.next] == job.ids;
  }

  /** An append touches no slot that a reader of the present count may use. */
  lemma AppendIsInvisible(cfg: Config, s: State, x: Id, i: nat)
    requires Reachable(cfg, s) && (CanAppendLink(cfg, s, x) || CanRepairAppend(cfg, s, x))
    requires i < s.lists[NextTarget(s.threads[x])].count
    ensures var job := LinkProtocol.AppendJob(s, x, NextTarget(s.threads[x]));
      i < job.next < |job.ids| && job.ids[i] == s.lists[job.target].slots[i] && x !in job.ids[..job.next]
  {
    ReachableInv(cfg, s);
    var target := NextTarget(s.threads[x]);
    var list := s.lists[target];
    var job := LinkProtocol.AppendJob(s, x, target);
    ThreadFacts(cfg, s, x);
    var t := s.threads[x];
    if t.pc.Link? { assert t.plan.picks[t.pc.lvl][t.pc.pick] in t.plan.cands[t.pc.lvl]; }
    CandidateFacts(cfg, s, x, target.node, target.lvl);
    ListFacts(cfg, s, target);
    forall j | 0 <= j < list.count ensures list.slots[j] != x {
      assert Origin(s, list.slots[j], target);
      NotYetLinked(cfg, s, x, target, j);
    }
    assert job.ids[..job.next] == list.slots[..list.count];
  }

  /** Orphan repair on a level starts only when no neighbour has kept the new node: whoever lists
      it there found it by its own search. */
  lemma RepairMeansUnlinked(cfg: Config, s: State, x: Id, k: Key)
    requires Reachable(cfg, s) && x < |s.threads| && s.threads[x].pc.Repair?
    requires k in s.lists && k.lvl == s.threads[x].pc.lvl && x in s.lists[k].slots
    ensures k.node < |s.threads| && Picked(s.threads[k.node], x, k.lvl)
  {
    ReachableInv(cfg, s);
    ThreadFacts(cfg, s, x);
    ListFacts(cfg, s, k);
    var i :| 0 <= i < |s.lists[k].slots| && s.lists[k].slots[i] == x;
    assert Origin(s, s.lists[k].slots[i], k);
  }

  // ---------------------------------------------------------------------------------------------
  // What a finished insertion has done
  // ---------------------------------------------------------------------------------------------

  /** In the run, insertion `x` took the stripe of list `k` to add itself to it. */
  ghost predicate Offered(cfg: Config, run: seq<Action>, x: Id, k: Key) {
    && run != []
    && (Offered(cfg, run[1..], x, k)
        || exists s0 :: Reaches(cfg, run[1..], s0) && OffersNow(cfg, s0, run[0], x, k))
  }

  /** Insertion `x` turns to list `k`: it joins a list with room, and has a full one selected anew with itself among
      the candidates. */
  ghost predicate OffersNow(cfg: Config, s: State, a: Action, x: Id, k: Key) {
    && Enabled(cfg, s, a) && (a == AppendLink(x) || (a.ShrinkLink? && a.x == x))
    && NextTarget(s.threads[x]) == k && k in s.lists && s.lists[k].count <= |s.lists[k].slots|
    && (a.AppendLink? <==> s.lists[k].count < Capacity(cfg, k.lvl))
    && x < |Apply(cfg, s, a).threads| && DecidesFor(cfg, s.lists[k], x, k, Apply(cfg, s, a).threads[x].pc)
  }

  /** The rewrite that was begun. */
  ghost predicate DecidesFor(cfg: Config, list: List, x: Id, k: Key, pc: Pc)
    requires list.count <= |list.slots|
  {
    && pc.Store? && pc.job.target == k && !pc.repairing
    && if list.count < Capacity(cfg, k.lvl) then pc.job.ids == list.slots[..list.count] + [x]
       else Reselection(cfg, list, x, k.lvl, pc.job.ids)
  }

  /** The insertion has passed its pick number `j` on level `l`. */
  predicate Past(t: Thread, l: nat, j: nat) {
    match t.pc
    case Link(l', p, _) => l < l' || (l == l' && j < p)
    case Store(_, l', p, _, repairing) => l < l' || (l == l' && (repairing || j <= p))
    case Repair(l', _) => l <= l'
    case Finish => true
    case Done => true
    case _ => false
  }

  /** A step moves only the thread it names. */
  lemma OnlyMover(cfg: Config, s: State, a: Action, x: Id)
    requires Enabled(cfg, s, a) && x < |s.threads|
    ensures x < |Apply(cfg, s, a).threads|
    ensures Apply(cfg, s, a).threads[x] == s.threads[x]
            || (!a.Grow? && !a.QueryStart? && !a.QueryVisit? && !a.QueryEnd? && a.x == x)
  {
    hide PlanFrom; hide Reselection;
  }

  /** Only taking the stripe of a pick gets an insertion past it. */
  lemma OthersDoNotPass(cfg: Config, s: State, a: Action, x: Id, l: nat, j: nat)
    requires Enabled(cfg, s, a) && x < |s.threads| && PlacedOk(s.threads[x])
    requires !Public(s.threads[x]) && !s.threads[x].pc.Write? ==> s.threads[x].plan == EmptyPlan
    requires !a.Grow? && !a.QueryStart? && !a.QueryVisit? && !a.QueryEnd? && a.x == x
    requires !a.AppendLink? && !a.ShrinkLink?
    ensures x < |Apply(cfg, s, a).threads|
    ensures var t := Apply(cfg, s, a).threads[x];
      Past(t, l, j) && l < |t.plan.picks| && j < |t.plan.picks[l]| ==> Past(s.threads[x], l, j)
  {
    hide PlanFrom; hide Reselection;
  }

  lemma PassingOffers(cfg: Config, s: State, a: Action, x: Id, l: nat, j: nat)
    requires Inv(cfg, s) && Enabled(cfg, s, a) && x < |s.threads| && x < |Apply(cfg, s, a).threads|
    requires !Past(s.threads[x], l, j) && Past(Apply(cfg, s, a).threads[x], l, j)
    requires l < |Apply(cfg, s, a).threads[x].plan.picks| && j < |Apply(cfg, s, a).threads[x].plan.picks[l]|
    ensures l < |s.threads[x].plan.picks| && s.threads[x].plan == Apply(cfg, s, a).threads[x].plan
    ensures OffersNow(cfg, s, a, x, Key(s.threads[x].plan.picks[l][j], l))
  {
    hide PlanOk; hide ListOk; hide WalkOk; hide EntryOk; hide OwnLists; hide SelfTracked; hide PlanFrom;
    hide JobOk; hide StripesOk; hide Reselection; hide Shape; hide EntryPoint;
    OnlyMover(cfg, s, a, x);
    ThreadFacts(cfg, s, x);
    if !a.AppendLink? && !a.ShrinkLink? { OthersDoNotPass(cfg, s, a, x, l, j); }
  }

  /** The last step of a run either asks the pick or found it asked. */
  lemma AskedSoFar(cfg: Config, run: seq<Action>, s0: State, s: State, x: Id, l: nat, j: nat)
    requires run != [] && Reaches(cfg, run[1..], s0) && Step(cfg, s0, run[0], s)
    requires x < |s.threads| && Past(s.threads[x], l, j)
    requires l < |s.threads[x].plan.picks| && j < |s.threads[x].plan.picks[l]|
    ensures x < |s0.threads|
    ensures Past(s0.threads[x], l, j) ==> s0.threads[x].plan == s.threads[x].plan
    ensures !Past(s0.threads[x], l, j) ==>
      OffersNow(cfg, s0, run[0], x, Key(s.threads[x].plan.picks[l][j], l))
  {
    hide Reaches; hide Enabled; hide Apply; hide Inv; hide OffersNow;
    RunKeepsInv(cfg, run[1..], s0);
    NewThreadIsFresh(cfg, s0, run[0], x);
    if !Past(s0.threads[x], l, j) {
      PassingOffers(cfg, s0, run[0], x, l, j);
    } else {
      StepFrame(cfg, s0, run[0], x);
    }
  }

  /** A row that was just reserved is idle. */
  lemma NewThreadIsFresh(cfg: Config, s: State, a: Action, x: Id)
    requires Inv(cfg, s) && Enabled(cfg, s, a) && x < |Apply(cfg, s, a).threads|
    ensures x < |s.threads| || Apply(cfg, s, a).threads[x] == NewThread
  {
    hide ThreadOk; hide ListOk; hide WalkOk; hide PlanFrom; hide Reselection; hide Shape; hide EntryPoint;
  }

  /** Every insertion that has finished a level asked each of its picks there, in a step of its own
      under the stripe, to list it; none is skipped. */
  lemma {:induction false} EveryPickIsAsked(cfg: Config, run: seq<Action>, s: State, x: Id, l: nat, j: nat)
    requires Reaches(cfg, run, s) && x < |s.threads| && Past(s.threads[x], l, j)
    requires l < |s.threads[x].plan.picks| && j < |s.threads[x].plan.picks[l]|
    ensures Offered(cfg, run, x, Key(s.threads[x].plan.picks[l][j], l))
  {
    if run != [] {
      var s0 :| Reaches(cfg, run[1..], s0) && Step(cfg, s0, run[0], s);
      AskedSoFar(cfg, run, s0, s, x, l, j);
      if x < |s0.threads| && Past(s0.threads[x], l, j) {
        EveryPickIsAsked(cfg, run[1..], s0, x, l, j);
      }
    }
  }

  // ---------------------------------------------------------------------------------------------
  // A failed link above the entry point
  // ---------------------------------------------------------------------------------------------

  lemma Extend(cfg: Config, s: State, a: Action)
    requires Reachable(cfg, s) && Enabled(cfg, s, a)
    ensures Reachable(cfg, Apply(cfg, s, a))
  {
    var run :| Reaches(cfg, run, s);
    var longer := [a] + run;
    assert longer[1..] == run && Step(cfg, s, a, Apply(cfg, s, a));
    assert Reaches(cfg, longer, Apply(cfg, s, a));
  }

  predicate NoLinks(s: State) {
    forall k :: k in s.lists ==> s.lists[k].count == 0
  }

  /** The first row becomes the entry point without a search. */
  lemma FirstRowLinked(cfg: Config) returns (s: State)
    ensures Reachable(cfg, s) && s.levels == [0] && s.entry == Entry(0, 0) && s.top == Free
    ensures |s.threads| == 1 && s.threads[0].pc.Done? && s.readers == [] && NoLinks(s)
  {
    assert Reaches(cfg, [], Init);
    Extend(cfg, Init, Grow(0));
    var s1 := DoGrow(Init, 0);
    Extend(cfg, s1, LoadEntry(0));
    var s2 := DoLoadEntry(s1, 0);
    Extend(cfg, s2, TakeTop(0));
    var s3 := DoTakeTop(s2, 0);
    Extend(cfg, s3, Publish(0));
    s := DoPublish(s3, 0);
  }

  lemma SecondRowGrown(cfg: Config) returns (s: State)
    requires cfg.maxLevel >= 1
    ensures Reachable(cfg, s) && s.levels == [0, 1] && s.entry == Entry(0, 0) && s.top == Free
    ensures |s.threads| == 2 && s.threads[0].pc.Done? && s.threads[1].pc.Idle? && NoLinks(s)
  {
    hide PlanFrom; hide Reselection; hide Reaches;
    var s4 := FirstRowLinked(cfg);
    Extend(cfg, s4, Grow(1));
    s := DoGrow(s4, 1);
  }

  lemma SecondRowWaits(cfg: Config) returns (s: State)
    requires cfg.maxLevel >= 1
    ensures Reachable(cfg, s) && s.levels == [0, 1] && s.entry == Entry(0, 0) && s.top == Free
    ensures |s.threads| == 2 && s.threads[0].pc.Done? && s.threads[1].pc.WantTop? && NoLinks(s)
  {
    hide PlanFrom; hide Reselection; hide Reaches;
    var s5 := SecondRowGrown(cfg);
    Extend(cfg, s5, LoadEntry(1));
    s := DoLoadEntry(s5, 1);
  }

  /** A second row on a higher level whose link runs out of memory leaves a quiet graph that the
      validator refuses. */
  lemma FailedRowExample(cfg: Config) returns (s: State)
    requires cfg.maxLevel >= 1
    ensures Reachable(cfg, s) && Quiet(s) && |s.threads| == |s.levels| == 2
    ensures s.threads[0].pc.Done? && s.threads[1].pc.Failed? && s.levels == [0, 1]
    ensures s.entry == Entry(0, 0) && NoLinks(s)
    ensures !ValidatorAccepts(cfg, s)
  {
    hide PlanFrom; hide Reselection; hide ListChecks; hide Reaches;
    var s6 := SecondRowWaits(cfg);
    Extend(cfg, s6, TakeTop(1));
    var s7 := DoTakeTop(s6, 1);
    Extend(cfg, s7, Fail(1));
    s := DoFail(s7, 1);
    assert s.levels[1] > s.entry.lvl;
  }
}
