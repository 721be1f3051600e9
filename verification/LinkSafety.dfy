/** What a step of one insertion leaves as it was, and that every step of an insertion keeps the invariant. */
module LinkSafety {
  import opened LinkProtocol

  // ---------------------------------------------------------------------------------------------
  // What one thread's step can change
  // ---------------------------------------------------------------------------------------------

  /** The lists that thread `x` may store to. */
  predicate Writable(s: State, x: Id, k: Key)
    requires x < |s.threads|
  {
    || (k.node == x && !Public(s.threads[x]))
    || (s.threads[x].pc.Store? && s.threads[x].pc.job.target == k)
  }

  /** Everything of the shared state that others rely on survives a step of `x`. */
  ghost predicate Effect(s: State, s': State, x: Id) {
    && x < |s.threads| == |s.levels| == |s'.threads|
    && s'.levels == s.levels && s'.readers == s.readers
    && (forall y :: 0 <= y < |s.threads| && y != x ==> s'.threads[y] == s.threads[y])
    && (forall k :: k in s.lists <==> k in s'.lists)
    && (forall k :: k in s.lists ==> |s.lists[k].slots| <= |s'.lists[k].slots|)
    && (forall k :: k in s.lists && !Writable(s, x, k) ==> s'.lists[k] == s.lists[k])
    && (Public(s.threads[x]) ==> Public(s'.threads[x]) && s'.threads[x].plan == s.threads[x].plan)
    && s.threads[x].placed <= s'.threads[x].placed
    && (s'.entry == s.entry || (s.top == HeldBy(x) && s'.entry.Entry?))
    && (s.entry.Entry? && s'.entry.Entry? ==> s.entry.lvl <= s'.entry.lvl)
    && (forall y :: y != x ==> (s.top == HeldBy(y) <==> s'.top == HeldBy(y)))
    && (forall n :: n in s.stripes && s.stripes[n] != x ==> n in s'.stripes && s'.stripes[n] == s.stripes[n])
    && (forall n :: n in s'.stripes && s'.stripes[n] != x ==> n in s.stripes && s.stripes[n] == s'.stripes[n])
  }

  // ---------------------------------------------------------------------------------------------
  // Facts that survive a step of another thread
  // ---------------------------------------------------------------------------------------------

  lemma KeepsTarget(s: State, s': State, x: Id, y: Id, k: Key)
    requires Effect(s, s', x)
    ensures TargetOk(s, y, k) ==> TargetOk(s', y, k)
  {}

  lemma KeepsOrigin(s: State, s': State, x: Id, y: Id, k: Key)
    requires Effect(s, s', x)
    requires Origin(s, y, k)
    requires Public(s.threads[x]) || s.threads[x].plan == EmptyPlan || s'.threads[x].plan == s.threads[x].plan
    ensures Origin(s', y, k)
  {}

  lemma KeepsWalk(s: State, s': State, x: Id, w: Walk)
    requires Effect(s, s', x)
    requires WalkOk(s, w)
    ensures WalkOk(s', w)
  {}

  /** Plans of unpublished threads start empty, so a step of `x` never loses a pick. */
  predicate PlanFrozen(s: State, s': State, x: Id)
    requires x < |s.threads| && x < |s'.threads|
  {
    s'.threads[x].plan == s.threads[x].plan || (s.threads[x].plan == EmptyPlan && !Public(s.threads[x]))
  }

  lemma KeepsPlan(cfg: Config, s: State, s': State, x: Id, y: Id)
    requires Effect(s, s', x)
    requires PlanOk(cfg, s, y) && s'.threads[y].plan == s.threads[y].plan
    ensures PlanOk(cfg, s', y)
  {
    var plan := s.threads[y].plan;
    forall l, i | 0 <= l < |plan.cands| && 0 <= i < |plan.cands[l]|
      ensures CandidateOk(s', y, plan.cands[l][i], l)
    {
      var c := plan.cands[l][i];
      assert CandidateOk(s, y, c, l);
      KeepsTarget(s, s', x, c, Key(y, l));
      assert s'.threads[c].plan == s.threads[c].plan;
      forall l' ensures !Picked(s'.threads[c], y, l') {
        assert !Picked(s.threads[c], y, l');
      }
    }
  }

  lemma KeepsJob(cfg: Config, s: State, s': State, x: Id, y: Id)
    requires Effect(s, s', x) && PlanFrozen(s, s', x)
    requires y != x && y < |s.threads| && JobOk(cfg, s, y) && JobOk(cfg, s, x)
    ensures JobOk(cfg, s', y)
  {
    var t := s.threads[y];
    if t.pc.Store? {
      var job := t.pc.job;
      assert !Writable(s, x, job.target);
      forall i | 0 <= i < |job.ids| ensures JobIdOk(s', job.ids[i], job.target) {
        assert JobIdOk(s, job.ids[i], job.target);
        KeepsTarget(s, s', x, job.ids[i], job.target);
        KeepsOrigin(s, s', x, job.ids[i], job.target);
      }
    }
  }

  lemma KeepsOwnLists(cfg: Config, s: State, s': State, x: Id, y: Id)
    requires Effect(s, s', x)
    requires y != x && y < |s.threads| && OwnLists(s, y) && JobOk(cfg, s, x)
    ensures OwnLists(s', y)
  {
    if !Public(s.threads[y]) {
      forall l | 0 <= l <= s'.levels[y] && Key(y, l) in s'.lists
        ensures OwnList(s'.threads[y], l, s'.lists[Key(y, l)])
      {
        assert !Writable(s, x, Key(y, l));
      }
    }
  }

  lemma OthersKeep(cfg: Config, s: State, s': State, x: Id, y: Id)
    requires Inv(cfg, s) && Effect(s, s', x) && PlanFrozen(s, s', x)
    requires y != x && y < |s.threads|
    ensures ThreadOk(cfg, s', y)
  {
    assert ThreadOk(cfg, s, y) && ThreadOk(cfg, s, x);
    KeepsWalk(s, s', x, s.threads[y].walk);
    KeepsPlan(cfg, s, s', x, y);
    KeepsJob(cfg, s, s', x, y);
    KeepsOwnLists(cfg, s, s', x, y);
  }

  lemma ListKeeps(cfg: Config, s: State, s': State, x: Id, k: Key)
    requires Inv(cfg, s) && Effect(s, s', x) && PlanFrozen(s, s', x)
    requires k in s.lists && s'.lists[k] == s.lists[k]
    requires Torn(s, k) ==> Torn(s', k)
    ensures ListOk(cfg, s', k)
  {
    assert ListOk(cfg, s, k);
    var list := s.lists[k];
    forall i | 0 <= i < |list.slots|
      ensures TargetOk(s', list.slots[i], k) && Origin(s', list.slots[i], k)
    {
      KeepsTarget(s, s', x, list.slots[i], k);
      KeepsOrigin(s, s', x, list.slots[i], k);
    }
  }

  // ---------------------------------------------------------------------------------------------
  // The thread that moves
  // ---------------------------------------------------------------------------------------------

  /** What has to be shown for the moving thread itself. */
  ghost predicate Moved(cfg: Config, s: State, s': State, x: Id) {
    && Effect(s, s', x) && PlanFrozen(s, s', x)
    && ThreadOk(cfg, s', x)
    && StripesOk(s') && EntryPoint(s')
    && (s'.top.HeldBy? ==> s'.top.id < |s'.threads|)
    && Calm(cfg, s, s')
  }

  /** Every list is either as it was, and no less torn, or checked anew. */
  ghost predicate Calm(cfg: Config, s: State, s': State) {
    forall k :: k in s.lists ==>
      && k in s'.lists
      && ((s'.lists[k] == s.lists[k] && (Torn(s, k) ==> Torn(s', k))) || ListOk(cfg, s', k))
  }

  /** The parts of `Moved`, for a thread that has published or is writing its own lists. */
  lemma Assemble(cfg: Config, s: State, s': State, x: Id)
    requires Effect(s, s', x) && PlanFrozen(s, s', x)
    requires WalkOk(s', s'.threads[x].walk) && PlanOk(cfg, s', x) && JobOk(cfg, s', x)
    requires PlacedOk(s'.threads[x]) && SelfTracked(s', x) && EntryOk(s', x) && OwnLists(s', x)
    requires StripesOk(s') && EntryPoint(s')
    requires s'.top.HeldBy? ==> s'.top.id < |s'.threads|
    requires var t := s'.threads[x];
      && (t.pc.Idle? || t.pc.WantTop? || t.pc.Search? || t.pc.Failed? ==> t.plan == EmptyPlan)
      && (t.pc.Write? ==> t.pc.lvl < |t.plan.picks| && t.pc.next <= |t.plan.picks[t.pc.lvl]|)
    requires Calm(cfg, s, s')
    ensures Moved(cfg, s, s', x)
  {}

  lemma MovedKeepsInv(cfg: Config, s: State, s': State, x: Id)
    requires Inv(cfg, s) && Moved(cfg, s, s', x)
    ensures Inv(cfg, s')
  {
    forall y | 0 <= y < |s'.threads| ensures ThreadOk(cfg, s', y) {
      if y != x { OthersKeep(cfg, s, s', x, y); }
    }
    forall k | k in s'.lists ensures ListOk(cfg, s', k) {
      if s'.lists[k] == s.lists[k] && (Torn(s, k) ==> Torn(s', k)) { ListKeeps(cfg, s, s', x, k); }
    }
    forall r | 0 <= r < |s'.readers| ensures WalkOk(s', s'.readers[r]) {
      KeepsWalk(s, s', x, s.readers[r]);
    }
  }

  /** What the moving thread may use of the invariant. */
  ghost predicate Ready(cfg: Config, s: State, x: Id) {
    && Shape(s) && EntryPoint(s) && StripesOk(s)
    && x < |s.threads| && ThreadOk(cfg, s, x)
    && (s.top.HeldBy? ==> s.top.id < |s.threads|)
  }

  /** A step that stores nothing to a list and neither takes nor frees a stripe. */
  lemma PcMove(cfg: Config, s: State, x: Id, t': Thread, top': Holder)
    requires Ready(cfg, s, x)
    requires var t := s.threads[x];
      && !t.pc.Store? && !t'.pc.Store? && !t.pc.Write? && !t'.pc.Write? && !t.pc.Done?
      && t'.plan == t.plan && t'.placed == t.placed
      && (Public(t) ==> Public(t')) && (!Public(t) ==> !Public(t') || t'.pc.Finish?)
      && (t'.pc.Idle? || t'.pc.WantTop? || t'.pc.Search? || t'.pc.Failed? ==> t'.plan == EmptyPlan)
      && (top' == s.top || (s.top == Free && top' == HeldBy(x)) || (s.top == HeldBy(x) && top' == Free))
    requires WalkOk(s, t'.walk) && PlacedOk(t')
    requires EntryOk(s.(threads := s.threads[x := t'], top := top'), x)
    ensures Moved(cfg, s, s.(threads := s.threads[x := t'], top := top'), x)
  {
    hide PlanOk, ListOk, WalkOk, PlacedOk, JobIdOk;
    var s' := s.(threads := s.threads[x := t'], top := top');
    assert Effect(s, s', x);
    KeepsPlan(cfg, s, s', x, x);
    KeepsWalk(s, s', x, t'.walk);
    assert OwnLists(s', x) by {
      forall l | !Public(t') && 0 <= l <= s'.levels[x] && Key(x, l) in s'.lists
        ensures OwnList(t', l, s'.lists[Key(x, l)])
      {
        assert OwnList(s.threads[x], l, s.lists[Key(x, l)]);
      }
    }
  }

  lemma LoadEntryMoves(cfg: Config, s: State, x: Id)
    requires Ready(cfg, s, x) && CanLoadEntry(s, x)
    ensures Moved(cfg, s, DoLoadEntry(s, x), x)
  {
    var s' := DoLoadEntry(s, x);
    PcMove(cfg, s, x, s'.threads[x], s.top);
  }

  lemma TakeTopMoves(cfg: Config, s: State, x: Id)
    requires Ready(cfg, s, x) && CanTakeTop(s, x)
    ensures Moved(cfg, s, DoTakeTop(s, x), x)
  {
    var s' := DoTakeTop(s, x);
    PcMove(cfg, s, x, s'.threads[x], s'.top);
  }

  lemma WalkStepOk(cfg: Config, s: State, w: Walk, step: WalkStep)
    requires Shape(s) && WalkOk(s, w) && WalkEnabled(s, w, step)
    requires step.LoadSlot? ==> ListOk(cfg, s, step.k)
    requires step.LoadCount? ==> ListOk(cfg, s, step.k)
    ensures WalkOk(s, WalkApply(s, w, step))
  {
    match step
    case LoadCount(k) =>
    case Descend(k) =>
    case LoadSlot(k, i) =>
      var y := s.lists[k].slots[i];
      assert TargetOk(s, y, k);
      assert Key(y, k.lvl) in s.lists;
  }

  lemma VisitMoves(cfg: Config, s: State, x: Id, step: WalkStep)
    requires Ready(cfg, s, x) && CanVisit(s, x, step)
    requires step.k in s.lists ==> ListOk(cfg, s, step.k)
    ensures Moved(cfg, s, DoVisit(s, x, step), x)
  {
    var s' := DoVisit(s, x, step);
    WalkStepOk(cfg, s, s.threads[x].walk, step);
    PcMove(cfg, s, x, s'.threads[x], s.top);
  }

  lemma FailMoves(cfg: Config, s: State, x: Id)
    requires Ready(cfg, s, x) && CanFail(s, x)
    ensures Moved(cfg, s, DoFail(s, x), x)
  {
    var s' := DoFail(s, x);
    PcMove(cfg, s, x, s'.threads[x], s'.top);
  }

  lemma EndLevelMoves(cfg: Config, s: State, x: Id)
    requires Ready(cfg, s, x) && CanEndLevel(s, x)
    ensures Moved(cfg, s, DoEndLevel(cfg, s, x), x)
  {
    var s' := DoEndLevel(cfg, s, x);
    PcMove(cfg, s, x, s'.threads[x], s.top);
  }

  lemma RepairSkipMoves(cfg: Config, s: State, x: Id)
    requires Ready(cfg, s, x) && CanRepairSkip(cfg, s, x)
    ensures Moved(cfg, s, DoRepairSkip(cfg, s, x), x)
  {
    PcMove(cfg, s, x, DoRepairSkip(cfg, s, x).threads[x], s.top);
  }

  lemma RepairEndMoves(cfg: Config, s: State, x: Id)
    requires Ready(cfg, s, x) && CanRepairEnd(s, x)
    ensures Moved(cfg, s, DoRepairEnd(s, x), x)
  {
    PcMove(cfg, s, x, DoRepairEnd(s, x).threads[x], s.top);
  }

  /** Two insertions in flight cannot both have discovered the other: whoever publishes first had
      finished its search before it could be found. */
  lemma NoMutualDiscovery(cfg: Config, s: State, x: Id, c: Id, l: nat)
    requires x < |s.threads| == |s.levels| && c < |s.threads|
    requires !Public(s.threads[x])
    requires PlanOk(cfg, s, c)
    ensures !Picked(s.threads[c], x, l)
  {}

  lemma ChosenPlanOk(cfg: Config, s: State, x: Id, plan: Plan)
    requires Inv(cfg, s) && x < |s.threads| && s.threads[x].pc.Search? && PlanFrom(cfg, s, x, plan)
    requires forall y :: 0 <= y < |s.threads| ==> PlanOk(cfg, s, y)
    ensures PlanOk(cfg, DoChoose(s, x, plan), x)
  {
    var t := s.threads[x];
    var s' := DoChoose(s, x, plan);
    assert ThreadOk(cfg, s, x);
    forall l, i | 0 <= l < |plan.cands| && 0 <= i < |plan.cands[l]|
      ensures CandidateOk(s', x, plan.cands[l][i], l)
    {
      var c := plan.cands[l][i];
      assert Key(c, l) in t.walk.seen;
      assert c != x;
      forall l' ensures !Picked(s'.threads[c], x, l') {
        NoMutualDiscovery(cfg, s, x, c, l');
      }
    }
  }

  lemma ChooseMoves(cfg: Config, s: State, x: Id, plan: Plan)
    requires Inv(cfg, s) && CanChoose(cfg, s, x, plan)
    ensures Moved(cfg, s, DoChoose(s, x, plan), x)
  {
    var t := s.threads[x];
    var s' := DoChoose(s, x, plan);
    forall y | 0 <= y < |s.threads| ensures PlanOk(cfg, s, y) {
      assert ThreadOk(cfg, s, y);
    }
    ChosenPlanOk(cfg, s, x, plan);
    ChosenRest(cfg, s, x, plan);
  }

  lemma ChosenRest(cfg: Config, s: State, x: Id, plan: Plan)
    requires Ready(cfg, s, x) && s.threads[x].pc.Search?
    requires |plan.picks| == |plan.cands| > 0
    requires var s' := DoChoose(s, x, plan);
      PlanOk(cfg, s', x)
    ensures var s' := DoChoose(s, x, plan);
      Moved(cfg, s, s', x)
  {
    hide PlanOk, ListOk, PlanFrom;
    var s' := DoChoose(s, x, plan);
    assert Effect(s, s', x);
    assert OwnLists(s', x) by {
      forall l | 0 <= l <= s'.levels[x] && Key(x, l) in s'.lists
        ensures OwnList(s'.threads[x], l, s'.lists[Key(x, l)])
      {
        assert OwnList(s.threads[x], l, s.lists[Key(x, l)]);
      }
    }
  }

  /** Facts about the moving thread that a store to a list does not touch. */
  lemma StoreKeeps(cfg: Config, s: State, s': State, x: Id)
    requires Ready(cfg, s, x) && Effect(s, s', x)
    requires s'.top == s.top && s'.entry == s.entry
    requires var t, t' := s.threads[x], s'.threads[x];
      && t'.entry == t.entry && t'.walk == t.walk && t'.plan == t.plan
      && InFlight(t) && !t.pc.WantTop? && InFlight(t') && !t'.pc.WantTop? && (t.entry.NoEntry? ==> t'.pc.Finish?)
    ensures EntryOk(s', x) && EntryPoint(s')
    ensures PlanOk(cfg, s', x) && WalkOk(s', s'.threads[x].walk)
  {
    KeepsPlan(cfg, s, s', x, x);
    KeepsWalk(s, s', x, s.threads[x].walk);
  }

  /** A step that stores to one list that `x` may write, or changes stripes held by `x`. */
  lemma StoreEffect(s: State, s': State, x: Id, k: Key)
    requires x < |s.threads| == |s.levels| && k in s.lists && x < |s'.threads| && k in s'.lists
    requires s' == State(s.levels, s.threads[x := s'.threads[x]], s.lists[k := s'.lists[k]], s.entry, s.top,
                         s'.stripes, s.readers)
    requires s'.lists[k] == s.lists[k] || (Writable(s, x, k) && |s.lists[k].slots| <= |s'.lists[k].slots|)
    requires Public(s.threads[x]) ==> Public(s'.threads[x])
    requires s'.threads[x].plan == s.threads[x].plan && s.threads[x].placed <= s'.threads[x].placed
    requires forall n :: n != k.node ==> (n in s.stripes <==> n in s'.stripes)
    requires forall n :: n != k.node && n in s.stripes ==> s.stripes[n] == s'.stripes[n]
    requires k.node in s.stripes ==> s.stripes[k.node] == x || s'.stripes == s.stripes
    requires k.node in s'.stripes ==> s'.stripes[k.node] == x || s'.stripes == s.stripes
    ensures Effect(s, s', x) && PlanFrozen(s, s', x)
  {}

  /** Other lists stay as torn as they were. */
  lemma OtherListsCalm(cfg: Config, s: State, s': State, x: Id, k: Key)
    requires Effect(s, s', x) && StripesOk(s)
    requires forall k' :: k' in s.lists && k' != k ==> s'.lists[k'] == s.lists[k']
    requires s.threads[x].pc.Store? ==> s.threads[x].pc.job.target == k
    requires k in s.lists
    requires ListOk(cfg, s', k) || (s'.lists[k] == s.lists[k] && (Torn(s, k) ==> Torn(s', k)))
    ensures Calm(cfg, s, s')
  {
    forall k' | k' in s.lists && k' != k ensures Torn(s, k') ==> Torn(s', k') {
      if Torn(s, k') { assert s.stripes[k'.node] != x; }
    }
  }

  lemma OwnStoreList(cfg: Config, s: State, s': State, x: Id, k: Key)
    requires PlanOk(cfg, s', x) && Shape(s)
    requires k.node == x && k in s.lists && k in s'.lists && |s.threads| == |s'.threads|
    requires s'.threads[x].plan.picks == s.threads[x].plan.picks && k.lvl < |s.threads[x].plan.picks|
    requires s'.lists[k].slots <= s.threads[x].plan.picks[k.lvl]
    requires s'.lists[k].count <= |s'.lists[k].slots|
    ensures ListOk(cfg, s', k)
  {
    var slots := s'.lists[k].slots;
    var plan := s'.threads[x].plan;
    forall i | 0 <= i < |slots|
      ensures TargetOk(s', slots[i], k) && Origin(s', slots[i], k)
    {
      assert slots[i] == plan.picks[k.lvl][i] && plan.picks[k.lvl][i] in plan.cands[k.lvl];
      CandidateFacts(cfg, s', x, slots[i], k.lvl);
    }
  }

  /** A store of thread `x` to its own list `k` before publication. */
  lemma OwnStore(cfg: Config, s: State, x: Id, k: Key, list': List, t': Thread)
    requires Ready(cfg, s, x)
    requires k.node == x && k in s.lists && ListOk(cfg, s, k)
    requires var t := s.threads[x];
      && t.pc.Write? && (t'.pc.Write? || t'.pc == Link(0, 0, 0))
      && t' == t.(pc := t'.pc)
      && (t'.pc.Write? ==> t'.pc.lvl < |t.plan.picks| && t'.pc.next <= |t.plan.picks[t'.pc.lvl]|)
    requires k.lvl < |s.threads[x].plan.picks|
    requires |s.lists[k].slots| <= |list'.slots|
    requires list'.slots <= s.threads[x].plan.picks[k.lvl]
    requires list'.count <= |list'.slots|
    requires var s' := s.(lists := s.lists[k := list'], threads := s.threads[x := t']);
      OwnLists(s', x)
    ensures Moved(cfg, s, s.(lists := s.lists[k := list'], threads := s.threads[x := t']), x)
  {
    hide Effect, PlanOk, ListOk, WalkOk, Calm, EntryPoint, OwnLists;
    var s' := s.(lists := s.lists[k := list'], threads := s.threads[x := t']);
    StoreEffect(s, s', x, k);
    StoreKeeps(cfg, s, s', x);
    OwnStoreList(cfg, s, s', x, k);
    OtherListsCalm(cfg, s, s', x, k);
    assert StripesOk(s');
    Assemble(cfg, s, s', x);
  }

  lemma WriteSlotMoves(cfg: Config, s: State, x: Id)
    requires Ready(cfg, s, x) && CanWriteSlot(s, x)
    requires ListOk(cfg, s, Key(x, s.threads[x].pc.lvl))
    ensures Moved(cfg, s, DoWriteSlot(s, x), x)
  {
    var t := s.threads[x];
    var pc := t.pc;
    var k := Key(x, pc.lvl);
    var picks := t.plan.picks[pc.lvl];
    var s' := DoWriteSlot(s, x);
    assert OwnList(t, pc.lvl, s.lists[k]);
    assert s'.lists[k].slots == picks[..pc.next + 1];
    assert OwnLists(s', x) by {
      forall l | 0 <= l <= s'.levels[x] && Key(x, l) in s'.lists
        ensures OwnList(s'.threads[x], l, s'.lists[Key(x, l)])
      {
        assert OwnList(t, l, s.lists[Key(x, l)]);
      }
    }
    OwnStore(cfg, s, x, k, s'.lists[k], s'.threads[x]);
  }

  lemma WriteCountMoves(cfg: Config, s: State, x: Id)
    requires Ready(cfg, s, x) && CanWriteCount(s, x)
    requires ListOk(cfg, s, Key(x, s.threads[x].pc.lvl))
    ensures Moved(cfg, s, DoWriteCount(s, x), x)
  {
    var t := s.threads[x];
    var pc := t.pc;
    var k := Key(x, pc.lvl);
    var s' := DoWriteCount(s, x);
    assert OwnList(t, pc.lvl, s.lists[k]);
    assert t.plan.picks[pc.lvl][..pc.next] == t.plan.picks[pc.lvl];
    assert OwnLists(s', x) by {
      forall l | 0 <= l <= s'.levels[x] && Key(x, l) in s'.lists && !Public(s'.threads[x])
        ensures OwnList(s'.threads[x], l, s'.lists[Key(x, l)])
      {
        assert OwnList(t, l, s.lists[Key(x, l)]);
      }
    }
    OwnStore(cfg, s, x, k, s'.lists[k], s'.threads[x]);
  }

  lemma StartJobOk(cfg: Config, s: State, s': State, x: Id, job: Job)
    requires Effect(s, s', x) && PlanFrozen(s, s', x)
    requires s'.threads[x].pc.Store? && s'.threads[x].pc.job == job
    requires job.target in s.lists && s'.lists == s.lists && ListOk(cfg, s, job.target)
    requires x in job.ids ==> job.target in s'.threads[x].placed
    requires Public(s.threads[x]) && TargetOk(s, job.target.node, Key(x, job.target.lvl))
    requires job.target.lvl <= s.levels[x]
    requires job.target.node in s'.stripes && s'.stripes[job.target.node] == x
    requires job.next <= s.lists[job.target].count && job.next <= |job.ids| <= Capacity(cfg, job.target.lvl)
    requires job.ids[..job.next] == s.lists[job.target].slots[..job.next]
    requires Distinct(job.ids)
    requires forall i :: 0 <= i < |job.ids| ==> job.ids[i] == x || job.ids[i] in s.lists[job.target].slots
    ensures JobOk(cfg, s', x)
  {
    var slots := s.lists[job.target].slots;
    forall i | 0 <= i < |job.ids| ensures JobIdOk(s', job.ids[i], job.target) {
      if job.ids[i] != x {
        var j :| 0 <= j < |slots| && slots[j] == job.ids[i];
        assert TargetOk(s, slots[j], job.target);
        KeepsTarget(s, s', x, job.ids[i], job.target);
        KeepsOrigin(s, s', x, job.ids[i], job.target);
      }
    }
  }

  /** A rewrite takes place on a level that the inserting node reaches. */
  lemma JobLevel(cfg: Config, s: State, x: Id, t': Thread)
    requires Shape(s) && x < |s.threads| && PlanOk(cfg, s, x) && t'.plan == s.threads[x].plan
    requires t'.pc.Store? && PlacedOk(t')
    ensures t'.pc.job.target.lvl <= s.levels[x]
  {}

  /** Taking the stripe of `target` for a rewrite to `ids`. */
  lemma StartStore(cfg: Config, s: State, x: Id, job: Job, t': Thread)
    requires Ready(cfg, s, x)
    requires var t := s.threads[x];
      && (t.pc.Link? || t.pc.Repair?) && t'.pc.Store? && t'.pc.job == job
      && t' == t.(pc := t'.pc, placed := t'.placed)
      && t'.placed == (if x in job.ids then t.placed + {job.target} else t.placed)
    requires job.target in s.lists && ListOk(cfg, s, job.target)
    requires job.target !in s.threads[x].placed
    requires TargetOk(s, job.target.node, Key(x, job.target.lvl)) && job.target.node !in s.stripes
    requires job.next <= s.lists[job.target].count && job.next <= |job.ids| <= Capacity(cfg, job.target.lvl)
    requires job.ids[..job.next] == s.lists[job.target].slots[..job.next]
    requires Distinct(job.ids)
    requires forall i :: 0 <= i < |job.ids| ==> job.ids[i] == x || job.ids[i] in s.lists[job.target].slots
    requires PlacedOk(t')
    ensures Moved(cfg, s, s.(stripes := s.stripes[job.target.node := x], threads := s.threads[x := t']), x)
  {
    hide Effect, PlanOk, WalkOk, Calm, EntryPoint, PlacedOk, Distinct, JobOk;
    var t := s.threads[x];
    var s' := s.(stripes := s.stripes[job.target.node := x], threads := s.threads[x := t']);
    assert s'.lists == s.lists[job.target := s.lists[job.target]];
    StoreEffect(s, s', x, job.target);
    StoreKeeps(cfg, s, s', x);
    JobLevel(cfg, s, x, t');
    StartJobOk(cfg, s, s', x, job);
    OtherListsCalm(cfg, s, s', x, job.target);
    assert StripesOk(s');
    Assemble(cfg, s, s', x);
  }

  /** The inserting node is not in the list of a candidate it has not visited yet. */
  lemma NotYetLinked(cfg: Config, s: State, x: Id, target: Key, i: nat)
    requires target in s.lists && ListOk(cfg, s, target)
    requires target.node < |s.threads| && x < |s.threads|
    requires CandidateOk(s, x, target.node, target.lvl)
    requires target !in s.threads[x].placed
    requires i < |s.lists[target].slots|
    ensures s.lists[target].slots[i] != x
  {
    assert Origin(s, s.lists[target].slots[i], target);
  }

  lemma AppendJob(cfg: Config, s: State, x: Id, target: Key)
    requires target in s.lists && ListOk(cfg, s, target) && !Torn(s, target)
    requires target.node < |s.threads| && x < |s.threads|
    requires CandidateOk(s, x, target.node, target.lvl)
    requires target !in s.threads[x].placed
    ensures Distinct(s.lists[target].slots[..s.lists[target].count] + [x])
  {
    var list := s.lists[target];
    forall i | 0 <= i < list.count ensures list.slots[i] != x {
      NotYetLinked(cfg, s, x, target, i);
    }
  }

  /** Candidate `c` of level `l`: what the plan says about it. */
  lemma CandidateFacts(cfg: Config, s: State, x: Id, c: Id, l: nat)
    requires PlanOk(cfg, s, x) && l < |s.threads[x].plan.cands|
    requires c in s.threads[x].plan.cands[l]
    ensures CandidateOk(s, x, c, l)
  {
    var i :| 0 <= i < |s.threads[x].plan.cands[l]| && s.threads[x].plan.cands[l][i] == c;
  }

  lemma AppendLinkMoves(cfg: Config, s: State, x: Id)
    requires Ready(cfg, s, x) && CanAppendLink(cfg, s, x)
    requires var pc := s.threads[x].pc; ListOk(cfg, s, Key(s.threads[x].plan.picks[pc.lvl][pc.pick], pc.lvl))
    ensures Moved(cfg, s, DoAppendLink(cfg, s, x), x)
  {
    var t := s.threads[x];
    var picks := t.plan.picks[t.pc.lvl];
    var target := Key(picks[t.pc.pick], t.pc.lvl);
    assert picks[t.pc.pick] in t.plan.cands[t.pc.lvl];
    CandidateFacts(cfg, s, x, target.node, target.lvl);
    assert target !in t.placed;
    AppendJob(cfg, s, x, target);
    var s' := DoAppendLink(cfg, s, x);
    StartStore(cfg, s, x, s'.threads[x].pc.job, s'.threads[x]);
  }

  lemma ShrinkLinkMoves(cfg: Config, s: State, x: Id, ids: seq<Id>)
    requires Ready(cfg, s, x) && CanShrinkLink(cfg, s, x, ids)
    requires var pc := s.threads[x].pc; ListOk(cfg, s, Key(s.threads[x].plan.picks[pc.lvl][pc.pick], pc.lvl))
    ensures Moved(cfg, s, DoShrinkLink(cfg, s, x, ids), x)
  {
    var t := s.threads[x];
    var picks := t.plan.picks[t.pc.lvl];
    var target := Key(picks[t.pc.pick], t.pc.lvl);
    assert picks[t.pc.pick] in t.plan.cands[t.pc.lvl];
    CandidateFacts(cfg, s, x, target.node, target.lvl);
    assert target !in t.placed;
    var s' := DoShrinkLink(cfg, s, x, ids);
    StartStore(cfg, s, x, s'.threads[x].pc.job, s'.threads[x]);
  }

  lemma RepairAppendMoves(cfg: Config, s: State, x: Id)
    requires Ready(cfg, s, x) && CanRepairAppend(cfg, s, x)
    requires var pc := s.threads[x].pc; ListOk(cfg, s, Key(s.threads[x].plan.cands[pc.lvl][pc.cand], pc.lvl))
    ensures Moved(cfg, s, DoRepairAppend(cfg, s, x), x)
  {
    var t := s.threads[x];
    var target := Key(t.plan.cands[t.pc.lvl][t.pc.cand], t.pc.lvl);
    CandidateFacts(cfg, s, x, target.node, target.lvl);
    assert target !in t.placed;
    AppendJob(cfg, s, x, target);
    var s' := DoRepairAppend(cfg, s, x);
    StartStore(cfg, s, x, s'.threads[x].pc.job, s'.threads[x]);
  }

  lemma StoreSlotList(cfg: Config, s: State, s': State, x: Id, job: Job)
    requires Effect(s, s', x) && PlanFrozen(s, s', x) && JobOk(cfg, s, x)
    requires s.threads[x].pc.Store? && s.threads[x].pc.job == job && job.next < |job.ids|
    requires s'.threads[x] == s.threads[x].(pc := s.threads[x].pc.(job := job.(next := job.next + 1)))
    requires s'.stripes == s.stripes && job.target in s.lists
    requires s'.lists == s.lists[job.target := PutSlot(s.lists[job.target], job.next, job.ids[job.next])]
    requires ListOk(cfg, s, job.target)
    ensures ListOk(cfg, s', job.target) && JobOk(cfg, s', x)
  {
    var list, list' := s.lists[job.target], s'.lists[job.target];
    assert list'.slots[..job.next + 1] == job.ids[..job.next + 1];
    forall i | 0 <= i < |job.ids| ensures JobIdOk(s', job.ids[i], job.target) {
      assert JobIdOk(s, job.ids[i], job.target);
      KeepsTarget(s, s', x, job.ids[i], job.target);
      KeepsOrigin(s, s', x, job.ids[i], job.target);
    }
    assert Torn(s', job.target);
    forall i | 0 <= i < |list'.slots|
      ensures TargetOk(s', list'.slots[i], job.target) && Origin(s', list'.slots[i], job.target)
    {
      if i == job.next {
        assert JobIdOk(s', job.ids[i], job.target);
      } else {
        assert list'.slots[i] == list.slots[i];
        KeepsTarget(s, s', x, list.slots[i], job.target);
        KeepsOrigin(s, s', x, list.slots[i], job.target);
      }
    }
  }

  lemma StoreSlotProgress(s: State, x: Id)
    requires CanStoreSlot(s, x) && PlacedOk(s.threads[x]) && SelfTracked(s, x) && StripesOk(s)
    ensures var s' := DoStoreSlot(s, x);
      PlacedOk(s'.threads[x]) && SelfTracked(s', x) && StripesOk(s') && OwnLists(s', x)
  {}

  lemma StoreSlotMoves(cfg: Config, s: State, x: Id)
    requires Ready(cfg, s, x) && CanStoreSlot(s, x)
    requires ListOk(cfg, s, s.threads[x].pc.job.target)
    ensures Moved(cfg, s, DoStoreSlot(s, x), x)
  {
    hide Effect, PlanOk, ListOk, WalkOk, PlacedOk, OwnLists, SelfTracked, Calm, EntryPoint, Distinct, JobIdOk;
    var job := s.threads[x].pc.job;
    var s' := DoStoreSlot(s, x);
    StoreEffect(s, s', x, job.target);
    StoreKeeps(cfg, s, s', x);
    StoreSlotList(cfg, s, s', x, job);
    OtherListsCalm(cfg, s, s', x, job.target);
    StoreSlotProgress(s, x);
    Assemble(cfg, s, s', x);
  }

  lemma StoreCountList(cfg: Config, s: State, s': State, x: Id, job: Job)
    requires Effect(s, s', x) && PlanFrozen(s, s', x) && JobOk(cfg, s, x)
    requires s.threads[x].pc.Store? && s.threads[x].pc.job == job && job.next == |job.ids|
    requires job.target in s.lists
    requires s'.lists == s.lists[job.target := s.lists[job.target].(count := |job.ids|)]
    requires ListOk(cfg, s, job.target)
    ensures ListOk(cfg, s', job.target)
  {
    var list := s.lists[job.target];
    assert list.slots[..|job.ids|] == job.ids;
    forall i | 0 <= i < |list.slots|
      ensures TargetOk(s', list.slots[i], job.target) && Origin(s', list.slots[i], job.target)
    {
      KeepsTarget(s, s', x, list.slots[i], job.target);
      KeepsOrigin(s, s', x, list.slots[i], job.target);
    }
  }

  /** After a rewrite the insertion knows whether it was kept on this level. */
  lemma StoreCountProgress(cfg: Config, s: State, x: Id)
    requires x < |s.threads| == |s.levels| && CanStoreCount(s, x)
    requires PlacedOk(s.threads[x]) && SelfTracked(s, x) && |s.threads[x].plan.picks| == |s.threads[x].plan.cands|
    requires StripesOk(s) && JobOk(cfg, s, x)
    ensures var s' := DoStoreCount(s, x);
      PlacedOk(s'.threads[x]) && SelfTracked(s', x) && StripesOk(s') && OwnLists(s', x)
  {
    var t := s.threads[x];
    var pc := t.pc;
    if !pc.repairing {
      var picks := t.plan.picks[pc.lvl];
      assert picks[..pc.pick + 1] == picks[..pc.pick] + [picks[pc.pick]];
    }
  }

  lemma StoreCountMoves(cfg: Config, s: State, x: Id)
    requires Ready(cfg, s, x) && CanStoreCount(s, x)
    requires ListOk(cfg, s, s.threads[x].pc.job.target)
    ensures Moved(cfg, s, DoStoreCount(s, x), x)
  {
    hide Effect, PlanOk, ListOk, WalkOk, PlacedOk, OwnLists, SelfTracked, Calm, EntryPoint, Distinct, JobIdOk;
    var job := s.threads[x].pc.job;
    var s' := DoStoreCount(s, x);
    StoreEffect(s, s', x, job.target);
    StoreKeeps(cfg, s, s', x);
    StoreCountList(cfg, s, s', x, job);
    OtherListsCalm(cfg, s, s', x, job.target);
    StoreCountProgress(cfg, s, x);
    Assemble(cfg, s, s', x);
  }

  lemma PublishEffect(cfg: Config, s: State, x: Id)
    requires x < |s.threads| == |s.levels| && CanPublish(s, x)
    requires EntryOk(s, x) && EntryPoint(s) && StripesOk(s)
    ensures var s' := DoPublish(s, x);
      && Effect(s, s', x) && PlanFrozen(s, s', x) && EntryOk(s', x) && EntryPoint(s') && StripesOk(s')
      && forall k :: k in s.lists ==> (Torn(s, k) ==> Torn(s', k))
  {}

  lemma PublishMoves(cfg: Config, s: State, x: Id)
    requires Ready(cfg, s, x) && CanPublish(s, x)
    ensures Moved(cfg, s, DoPublish(s, x), x)
  {

    var s' := DoPublish(s, x);
    PublishEffect(cfg, s, x);
    KeepsPlan(cfg, s, s', x, x);
    KeepsWalk(s, s', x, s.threads[x].walk);
  }
}
