/** What holds in every state that any run of the insertion protocol can reach. */
module LinkTheorems {
  import opened LinkProtocol
  import opened LinkSafety

  // ---------------------------------------------------------------------------------------------
  // The invariant holds in every reachable state
  // ---------------------------------------------------------------------------------------------

  lemma ListFacts(cfg: Config, s: State, k: Key)
    requires Inv(cfg, s)
    ensures k in s.lists ==> ListOk(cfg, s, k)
  {}

  lemma ThreadFacts(cfg: Config, s: State, x: Id)
    requires Inv(cfg, s) && x < |s.threads|
    ensures Ready(cfg, s, x)
  {}

  lemma GrowKeepsInv(cfg: Config, s: State, level: nat)
    requires Inv(cfg, s) && CanGrow(cfg, s, level)
    ensures Inv(cfg, DoGrow(s, level))
  {
    var s' := DoGrow(s, level);
    forall k | k in s'.lists ensures ListOk(cfg, s', k) {
      if k in s.lists { GrowKeepsList(cfg, s, level, k); }
    }
    forall x | 0 <= x < |s'.threads| ensures ThreadOk(cfg, s', x) {
      if x < |s.threads| { GrowKeepsThread(cfg, s, level, x); }
    }
  }

  lemma GrowKeepsList(cfg: Config, s: State, level: nat, k: Key)
    requires Inv(cfg, s) && CanGrow(cfg, s, level) && k in s.lists
    ensures k in DoGrow(s, level).lists && ListOk(cfg, DoGrow(s, level), k)
  {
    hide ThreadOk;
    var s' := DoGrow(s, level);
    ListFacts(cfg, s, k);
    var list := s.lists[k];
    forall i | 0 <= i < |list.slots|
      ensures TargetOk(s', list.slots[i], k) && Origin(s', list.slots[i], k)
    {
      assert TargetOk(s, list.slots[i], k) && Origin(s, list.slots[i], k);
    }
  }

  lemma GrowKeepsThread(cfg: Config, s: State, level: nat, x: Id)
    requires Inv(cfg, s) && CanGrow(cfg, s, level) && x < |s.threads|
    ensures ThreadOk(cfg, DoGrow(s, level), x)
  {
    var s' := DoGrow(s, level);
    assert ThreadOk(cfg, s, x) && !InFlight(s.threads[x]);
    var plan := s.threads[x].plan;
    forall l, i | 0 <= l < |plan.cands| && 0 <= i < |plan.cands[l]|
      ensures CandidateOk(s', x, plan.cands[l][i], l)
    {
      assert CandidateOk(s, x, plan.cands[l][i], l);
      forall l' ensures !Picked(s'.threads[plan.cands[l][i]], x, l') {
        assert !Picked(s.threads[plan.cands[l][i]], x, l');
      }
    }
    forall l | !Public(s'.threads[x]) && 0 <= l <= s'.levels[x] && Key(x, l) in s'.lists
      ensures OwnList(s'.threads[x], l, s'.lists[Key(x, l)])
    {
      assert OwnList(s.threads[x], l, s.lists[Key(x, l)]);
    }
  }

  lemma SameButReaders(cfg: Config, s: State, readers: seq<Walk>)
    requires Inv(cfg, s)
    requires forall r :: 0 <= r < |readers| ==> WalkOk(s, readers[r])
    ensures Inv(cfg, s.(readers := readers))
  {
    var s' := s.(readers := readers);
    forall x | 0 <= x < |s'.threads| ensures ThreadOk(cfg, s', x) {
      ReadersIrrelevant(cfg, s, readers, x);
    }
    forall k | k in s'.lists ensures ListOk(cfg, s', k) {
      ListFacts(cfg, s, k);
      var list := s.lists[k];
      forall i | 0 <= i < |list.slots|
        ensures TargetOk(s', list.slots[i], k) && Origin(s', list.slots[i], k)
      {
        assert TargetOk(s, list.slots[i], k) && Origin(s, list.slots[i], k);
      }
    }
    forall r | 0 <= r < |readers| ensures WalkOk(s', readers[r]) {
      assert WalkOk(s, readers[r]);
    }
  }

  lemma ReadersIrrelevant(cfg: Config, s: State, readers: seq<Walk>, x: Id)
    requires Inv(cfg, s) && x < |s.threads|
    ensures ThreadOk(cfg, s.(readers := readers), x)
  {
    var s' := s.(readers := readers);
    assert ThreadOk(cfg, s, x);
    var t := s.threads[x];
    forall l, i | 0 <= l < |t.plan.cands| && 0 <= i < |t.plan.cands[l]|
      ensures CandidateOk(s', x, t.plan.cands[l][i], l)
    {
      assert CandidateOk(s, x, t.plan.cands[l][i], l);
    }
    if t.pc.Store? {
      forall i | 0 <= i < |t.pc.job.ids| ensures JobIdOk(s', t.pc.job.ids[i], t.pc.job.target) {
        assert JobIdOk(s, t.pc.job.ids[i], t.pc.job.target);
      }
    }
    forall l | !Public(t) && 0 <= l <= s'.levels[x] && Key(x, l) in s'.lists
      ensures OwnList(t, l, s'.lists[Key(x, l)])
    {
      assert OwnList(t, l, s.lists[Key(x, l)]);
    }
  }

  lemma QueryKeepsInv(cfg: Config, s: State, a: Action)
    requires Inv(cfg, s) && Enabled(cfg, s, a)
    requires a.QueryStart? || a.QueryVisit? || a.QueryEnd?
    ensures Inv(cfg, Apply(cfg, s, a))
  {
    hide ThreadOk, ListOk, StripesOk;
    var s' := Apply(cfg, s, a);
    if a.QueryVisit? {
      ListFacts(cfg, s, a.step.k);
      WalkStepOk(cfg, s, s.readers[a.r], a.step);
    }
    SameButReaders(cfg, s, s'.readers);
  }

  lemma MoveKeepsInv(cfg: Config, s: State, a: Action)
    requires Inv(cfg, s) && Enabled(cfg, s, a)
    requires !a.Grow? && !a.QueryStart? && !a.QueryVisit? && !a.QueryEnd?
    ensures Moved(cfg, s, Apply(cfg, s, a), a.x)
  {
    hide PlanOk, ListOk, WalkOk, PlacedOk, OwnLists, SelfTracked, EntryOk, Effect, Calm, PlanFrom;
    var x := a.x;
    ThreadFacts(cfg, s, x);
    var t := s.threads[x];
    match a
    case LoadEntry(_) => LoadEntryMoves(cfg, s, x);
    case TakeTop(_) => TakeTopMoves(cfg, s, x);
    case Visit(_, step) => ListFacts(cfg, s, step.k); VisitMoves(cfg, s, x, step);
    case Choose(_, plan) => ChooseMoves(cfg, s, x, plan);
    case Fail(_) => FailMoves(cfg, s, x);
    case WriteSlot(_) => ListFacts(cfg, s, Key(x, t.pc.lvl)); WriteSlotMoves(cfg, s, x);
    case WriteCount(_) => ListFacts(cfg, s, Key(x, t.pc.lvl)); WriteCountMoves(cfg, s, x);
    case AppendLink(_) => ListFacts(cfg, s, NextTarget(t)); AppendLinkMoves(cfg, s, x);
    case ShrinkLink(_, ids) => ListFacts(cfg, s, NextTarget(t)); ShrinkLinkMoves(cfg, s, x, ids);
    case EndLevel(_) => EndLevelMoves(cfg, s, x);
    case RepairAppend(_) => ListFacts(cfg, s, NextTarget(t)); RepairAppendMoves(cfg, s, x);
    case RepairSkip(_) => RepairSkipMoves(cfg, s, x);
    case RepairEnd(_) => RepairEndMoves(cfg, s, x);
    case StoreSlot(_) => ListFacts(cfg, s, t.pc.job.target); StoreSlotMoves(cfg, s, x);
    case StoreCount(_) => ListFacts(cfg, s, t.pc.job.target); StoreCountMoves(cfg, s, x);
    case Publish(_) => PublishMoves(cfg, s, x);
  }

  /** One step, whatever it is, keeps the invariant. */
  lemma StepKeepsInv(cfg: Config, s: State, a: Action)
    requires Inv(cfg, s) && Enabled(cfg, s, a)
    ensures Inv(cfg, Apply(cfg, s, a))
  {
    if a.Grow? {
      GrowKeepsInv(cfg, s, a.level);
    } else if a.QueryStart? || a.QueryVisit? || a.QueryEnd? {
      QueryKeepsInv(cfg, s, a);
    } else {
      MoveKeepsInv(cfg, s, a);
      MovedKeepsInv(cfg, s, Apply(cfg, s, a), a.x);
    }
  }

  ghost predicate Step(cfg: Config, s: State, a: Action, s': State) {
    Enabled(cfg, s, a) && s' == Apply(cfg, s, a)
  }

  /** `s` is reached from the empty graph by the given actions, latest first. */
  ghost predicate Reaches(cfg: Config, run: seq<Action>, s: State) {
    if run == [] then s == Init
    else exists s0 :: Reaches(cfg, run[1..], s0) && Step(cfg, s0, run[0], s)
  }

  ghost predicate Reachable(cfg: Config, s: State) {
    exists run :: Reaches(cfg, run, s)
  }

  lemma {:induction false} RunKeepsInv(cfg: Config, run: seq<Action>, s: State)
    requires Reaches(cfg, run, s)
    ensures Inv(cfg, s)
  {
    if run != [] {
      var s0 :| Reaches(cfg, run[1..], s0) && Step(cfg, s0, run[0], s);
      RunKeepsInv(cfg, run[1..], s0);
      StepKeepsInv(cfg, s0, run[0]);
    }
  }

  lemma ReachableInv(cfg: Config, s: State)
    requires Reachable(cfg, s)
    ensures Inv(cfg, s)
  {
    var run :| Reaches(cfg, run, s);
    RunKeepsInv(cfg, run, s);
  }

  // ---------------------------------------------------------------------------------------------
  // Lists
  // ---------------------------------------------------------------------------------------------

  /** Nobody is in the middle of rewriting list `k`. */
  ghost predicate Settled(s: State, k: Key) {
    forall x :: 0 <= x < |s.threads| && s.threads[x].pc.Store? ==> s.threads[x].pc.job.target != k
  }

  /** At every store, every list is within capacity and every slot below its count names another
      node that reaches this level and has all its own lists written. A list that is not being
      rewritten holds no duplicate. */
  lemma ListsSound(cfg: Config, s: State, k: Key)
    requires Reachable(cfg, s) && k in s.lists
    ensures k.node < |s.threads| == |s.levels| && k.lvl <= s.levels[k.node]
    ensures s.lists[k].count <= |s.lists[k].slots| <= Capacity(cfg, k.lvl)
    ensures forall i :: 0 <= i < |s.lists[k].slots| ==>
      var y := s.lists[k].slots[i];
      y < |s.threads| && y != k.node && s.levels[y] >= k.lvl && Public(s.threads[y])
    ensures Settled(s, k) ==> Distinct(s.lists[k].slots[..s.lists[k].count])
  {
    ReachableInv(cfg, s);
    ListFacts(cfg, s, k);
    forall i | 0 <= i < |s.lists[k].slots| ensures TargetOk(s, s.lists[k].slots[i], k) {}
  }

  /** Two insertions in flight never pick each other. */
  lemma NeverPickEachOther(cfg: Config, s: State, x: Id, y: Id, l: nat, l': nat)
    requires Reachable(cfg, s) && x < |s.threads| && y < |s.threads|
    requires Picked(s.threads[x], y, l)
    ensures !Picked(s.threads[y], x, l')
  {
    ReachableInv(cfg, s);
    assert ThreadOk(cfg, s, x);
    var plan := s.threads[x].plan;
    var i :| 0 <= i < |plan.picks[l]| && plan.picks[l][i] == y;
    assert plan.picks[l][i] in plan.cands[l];
    CandidateFacts(cfg, s, x, y, l);
  }

  /** Rewrites exclude each other: one list is rewritten by at most one insertion. */
  lemma OneWriterPerNode(cfg: Config, s: State, x: Id, y: Id)
    requires Reachable(cfg, s) && x < |s.threads| && y < |s.threads|
    requires s.threads[x].pc.Store? && s.threads[y].pc.Store?
    requires s.threads[x].pc.job.target.node == s.threads[y].pc.job.target.node
    ensures x == y
  {
    ReachableInv(cfg, s);
    assert ThreadOk(cfg, s, x) && ThreadOk(cfg, s, y);
  }

  lemma StepFrame(cfg: Config, s: State, a: Action, x: Id)
    requires Inv(cfg, s) && Enabled(cfg, s, a) && x < |s.threads|
    ensures var s' := Apply(cfg, s, a);
      || (x < |s'.threads| && s'.threads[x] == s.threads[x])
      || (!a.Grow? && !a.QueryStart? && !a.QueryVisit? && !a.QueryEnd? && a.x == x && Effect(s, s', x))
  {
    if !(a.Grow? || a.QueryStart? || a.QueryVisit? || a.QueryEnd?) {
      MoveKeepsInv(cfg, s, a);
      assert Effect(s, Apply(cfg, s, a), a.x);
    }
  }

  lemma WrittenAtLastCount(cfg: Config, s: State, x: Id, l: nat)
    requires Ready(cfg, s, x) && CanWriteCount(s, x) && Public(DoWriteCount(s, x).threads[x])
    requires Key(x, l) in s.lists
    ensures var picks := s.threads[x].plan.picks;
      DoWriteCount(s, x).lists[Key(x, l)] ==
        if l < |picks| then List(|picks[l]|, picks[l]) else List(0, [])
  {
    var t := s.threads[x];
    assert OwnList(t, l, s.lists[Key(x, l)]);
    if l == t.pc.lvl {
      assert t.plan.picks[l][..t.pc.next] == t.plan.picks[l];
    }
  }

  /** An insertion becomes visible only when all its own lists are completely written: those it
      links on hold its selection, those above are empty. */
  lemma PublishedWhenWritten(cfg: Config, s: State, a: Action, x: Id, l: nat)
    requires Reachable(cfg, s) && Enabled(cfg, s, a) && x < |s.threads|
    requires x < |Apply(cfg, s, a).threads|
    requires !Public(s.threads[x]) && Public(Apply(cfg, s, a).threads[x])
    requires Key(x, l) in s.lists
    ensures Key(x, l) in Apply(cfg, s, a).lists
    ensures var picks := s.threads[x].plan.picks;
      Apply(cfg, s, a).lists[Key(x, l)] ==
        if l < |picks| then List(|picks[l]|, picks[l]) else List(0, [])
  {
    hide ListOk, WalkOk, PlanOk, JobOk, PlacedOk, SelfTracked, EntryOk, EntryPoint, StripesOk, Reachable;
    ReachableInv(cfg, s);
    StepFrame(cfg, s, a, x);
    ThreadFacts(cfg, s, x);
    if a.WriteCount? {
      WrittenAtLastCount(cfg, s, x, l);
    } else {
      assert OwnList(s.threads[x], l, s.lists[Key(x, l)]);
    }
  }

  /** Visibility is never taken back. */
  lemma StaysPublished(cfg: Config, s: State, a: Action, x: Id)
    requires Reachable(cfg, s) && Enabled(cfg, s, a) && x < |s.threads|
    requires Public(s.threads[x])
    ensures x < |Apply(cfg, s, a).threads| && Public(Apply(cfg, s, a).threads[x])
  {
    ReachableInv(cfg, s);
    StepFrame(cfg, s, a, x);
  }

  // ---------------------------------------------------------------------------------------------
  // Readers
  // ---------------------------------------------------------------------------------------------

  /** Whatever slot a query or an insertion is about to load, however old the size it works with,
      the slot is written and names a published node that has a list on this level. */
  lemma TraversalSafe(cfg: Config, s: State, w: Walk, k: Key, i: nat)
    requires Reachable(cfg, s)
    requires w in s.readers || (exists x :: 0 <= x < |s.threads| && s.threads[x].walk == w)
    requires k in w.sizes && i < w.sizes[k]
    ensures k in s.lists && i < |s.lists[k].slots|
    ensures var y := s.lists[k].slots[i];
      && y < |s.threads| && Public(s.threads[y])
      && Key(y, k.lvl) in s.lists
  {
    ReachableInv(cfg, s);
    if w in s.readers {
      var r :| 0 <= r < |s.readers| && s.readers[r] == w;
      assert WalkOk(s, s.readers[r]);
    } else {
      var x :| 0 <= x < |s.threads| && s.threads[x].walk == w;
      assert ThreadOk(cfg, s, x);
    }
    ListFacts(cfg, s, k);
    var y := s.lists[k].slots[i];
    assert TargetOk(s, y, k);
    assert Key(y, k.lvl) in s.lists;
  }

  // ---------------------------------------------------------------------------------------------
  // Entry point and validator
  // ---------------------------------------------------------------------------------------------

  predicate Quiet(s: State) {
    forall x :: 0 <= x < |s.threads| ==> !InFlight(s.threads[x])
  }

  /** At all times the entry point is a linked node of the highest level linked so far. */
  lemma EntryIsTop(cfg: Config, s: State, x: Id)
    requires Reachable(cfg, s) && x < |s.threads| && s.threads[x].pc.Done?
    ensures s.entry.Entry? && s.entry.id < |s.threads| == |s.levels|
    ensures s.threads[s.entry.id].pc.Done? && s.levels[s.entry.id] == s.entry.lvl
    ensures s.levels[x] <= s.entry.lvl
  {
    ReachableInv(cfg, s);
    assert ThreadOk(cfg, s, x);
  }

  /** The entry level never falls. */
  lemma EntryMonotone(cfg: Config, s: State, a: Action)
    requires Reachable(cfg, s) && Enabled(cfg, s, a)
    ensures s.entry.Entry? ==>
      Apply(cfg, s, a).entry.Entry? && s.entry.lvl <= Apply(cfg, s, a).entry.lvl
  {
    ReachableInv(cfg, s);
    if !(a.Grow? || a.QueryStart? || a.QueryVisit? || a.QueryEnd?) {
      MoveKeepsInv(cfg, s, a);
    }
  }

  /** The checks of the graph validator, list by list. */
  ghost predicate ListChecks(cfg: Config, s: State, k: Key)
    requires k in s.lists && |s.threads| == |s.levels|
  {
    var list := s.lists[k];
    && list.count <= Capacity(cfg, k.lvl) && list.count <= |list.slots|
    && (forall i :: 0 <= i < list.count ==>
          list.slots[i] < |s.levels| && list.slots[i] != k.node && s.levels[list.slots[i]] >= k.lvl)
    && Distinct(list.slots[..list.count])
  }

  ghost predicate ValidatorAccepts(cfg: Config, s: State)
    requires |s.threads| == |s.levels|
  {
    if s.levels == [] then s.entry.NoEntry?
    else
      && s.entry.Entry? && s.entry.id < |s.levels| && s.levels[s.entry.id] == s.entry.lvl
      && (forall i :: 0 <= i < |s.levels| ==> s.levels[i] <= cfg.maxLevel && s.levels[i] <= s.entry.lvl)
      && (forall k :: k in s.lists ==> ListChecks(cfg, s, k))
  }

  lemma StepLevels(cfg: Config, s: State, a: Action)
    requires Inv(cfg, s) && Enabled(cfg, s, a)
    ensures Apply(cfg, s, a).levels == if a.Grow? then s.levels + [a.level] else s.levels
    ensures a.Grow? ==> a.level <= cfg.maxLevel
  {
    if !(a.Grow? || a.QueryStart? || a.QueryVisit? || a.QueryEnd?) {
      MoveKeepsInv(cfg, s, a);
    }
  }

  lemma {:induction false} LevelsCapped(cfg: Config, run: seq<Action>, s: State)
    requires Reaches(cfg, run, s)
    ensures forall i :: 0 <= i < |s.levels| ==> s.levels[i] <= cfg.maxLevel
  {
    if run != [] {
      var s0 :| Reaches(cfg, run[1..], s0) && Step(cfg, s0, run[0], s);
      LevelsCapped(cfg, run[1..], s0);
      RunKeepsInv(cfg, run[1..], s0);
      StepLevels(cfg, s0, run[0]);
    }
  }

  /** With no link in flight, the validator accepts the graph exactly when no row that failed or
      was never linked lies above the entry level (and some row is linked, or there is no row). */
  lemma QuietGraphIsValid(cfg: Config, s: State)
    requires Reachable(cfg, s) && Quiet(s)
    ensures |s.threads| == |s.levels|
    ensures ValidatorAccepts(cfg, s) <==>
      || s.levels == []
      || (s.entry.Entry? &&
          forall x :: 0 <= x < |s.threads| && !s.threads[x].pc.Done? ==> s.levels[x] <= s.entry.lvl)
  {
    ReachableInv(cfg, s);
    var run :| Reaches(cfg, run, s);
    LevelsCapped(cfg, run, s);
    forall k | k in s.lists ensures ListChecks(cfg, s, k) {
      ListsSound(cfg, s, k);
    }
    forall x | 0 <= x < |s.threads| && s.threads[x].pc.Done?
      ensures s.entry.Entry? && s.levels[x] <= s.entry.lvl
    {
      EntryIsTop(cfg, s, x);
    }
    if s.levels == [] && s.entry.Entry? { assert false; }
  }

  /** In particular a quiet graph without failures is valid. */
  lemma AllLinkedIsValid(cfg: Config, s: State)
    requires Reachable(cfg, s)
    requires forall x :: 0 <= x < |s.threads| ==> s.threads[x].pc.Done?
    ensures |s.threads| == |s.levels| && ValidatorAccepts(cfg, s)
  {
    QuietGraphIsValid(cfg, s);
    if s.levels != [] { EntryIsTop(cfg, s, 0); }
  }

  // ---------------------------------------------------------------------------------------------
  // Progress
  // ---------------------------------------------------------------------------------------------

  /** The step that insertion `x` is about to take. */
  ghost function NextStep(cfg: Config, s: State, x: Id): Action
    requires x < |s.threads| == |s.levels| && InFlight(s.threads[x])
  {
    var t := s.threads[x];
    match t.pc
    case WantTop => TakeTop(x)
    case Search =>
      var top := if t.entry.Entry? && t.entry.lvl < s.levels[x] then t.entry.lvl else s.levels[x];
      Choose(x, Plan(seq(top + 1, i => []), seq(top + 1, i => [])))
    case Write(l, i) =>
      if l < |t.plan.picks| && i < |t.plan.picks[l]| then WriteSlot(x) else WriteCount(x)
    case Link(l, j, _) =>
      if l < |t.plan.picks| && j < |t.plan.picks[l]| then
        if NextTarget(t) in s.lists && HasRoom(cfg, s, NextTarget(t)) then AppendLink(x) else ShrinkLink(x, [])
      else EndLevel(x)
    case Repair(l, c) =>
      if l < |t.plan.cands| && c < |t.plan.cands[l]| then
        if NextTarget(t) in s.lists && HasRoom(cfg, s, NextTarget(t)) then RepairAppend(x) else RepairSkip(x)
      else RepairEnd(x)
    case Store(job, _, _, _, _) => if job.next < |job.ids| then StoreSlot(x) else StoreCount(x)
    case _ => Publish(x)
  }

  lemma UnblockedAtTarget(cfg: Config, s: State, x: Id)
    requires Inv(cfg, s) && x < |s.threads|
    requires s.threads[x].pc.Link? || s.threads[x].pc.Repair?
    requires s.stripes == map[]
    ensures InFlight(s.threads[x]) && |s.threads| == |s.levels| && Enabled(cfg, s, NextStep(cfg, s, x))
  {
    hide PlanFrom, WalkOk, OwnLists, EntryOk, SelfTracked, StripesOk, EntryPoint;
    ThreadFacts(cfg, s, x);
    var t := s.threads[x];
    if t.pc.Link? && t.pc.pick < |t.plan.picks[t.pc.lvl]| {
      assert t.plan.picks[t.pc.lvl][t.pc.pick] in t.plan.cands[t.pc.lvl];
      CandidateFacts(cfg, s, x, t.plan.picks[t.pc.lvl][t.pc.pick], t.pc.lvl);
      ListFacts(cfg, s, NextTarget(t));
    } else if t.pc.Repair? && t.pc.cand < |t.plan.cands[t.pc.lvl]| {
      CandidateFacts(cfg, s, x, t.plan.cands[t.pc.lvl][t.pc.cand], t.pc.lvl);
      ListFacts(cfg, s, NextTarget(t));
    }
  }

  /** An insertion that waits for nobody can move. */
  lemma Unblocked(cfg: Config, s: State, x: Id)
    requires Inv(cfg, s) && x < |s.threads| && InFlight(s.threads[x])
    requires s.threads[x].pc.WantTop? ==> s.top == Free
    requires s.threads[x].pc.Link? || s.threads[x].pc.Repair? ==> s.stripes == map[]
    ensures |s.threads| == |s.levels| && Enabled(cfg, s, NextStep(cfg, s, x))
  {
    hide WalkOk, SelfTracked, EntryPoint, ListOk;
    var t := s.threads[x];
    if t.pc.Link? || t.pc.Repair? {
      UnblockedAtTarget(cfg, s, x);
    } else {
      ThreadFacts(cfg, s, x);
      if t.pc.Write? {
        assert Key(x, t.pc.lvl) in s.lists;
        assert OwnList(t, t.pc.lvl, s.lists[Key(x, t.pc.lvl)]);
      }
    }
  }

  /** No deadlock: while an insertion is in flight, some insertion in flight can take its next step. */
  lemma NoDeadlock(cfg: Config, s: State, x: Id)
    requires Reachable(cfg, s) && x < |s.threads| && InFlight(s.threads[x])
    ensures |s.threads| == |s.levels|
    ensures exists y :: 0 <= y < |s.threads| && InFlight(s.threads[y]) && Enabled(cfg, s, NextStep(cfg, s, y))
  {
    ReachableInv(cfg, s);
    ThreadFacts(cfg, s, x);
    var z := x;
    if s.threads[x].pc.WantTop? && s.top != Free {
      z := s.top.id;
      ThreadFacts(cfg, s, z);
    }
    if (s.threads[z].pc.Link? || s.threads[z].pc.Repair?) && s.stripes != map[] {
      var n :| n in s.stripes;
      z := s.stripes[n];
    }
    Unblocked(cfg, s, z);
  }
}
