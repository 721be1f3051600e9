/** Concurrent HNSW insertion as a transition system.

    Rows are reserved first (`Grow`). Any number of `link` calls then run at once, interleaved with
    any number of searches. One action is one store to a list slot, to a list count or to the entry
    point, or one load made without a lock. Loads made under a stripe are merged with taking the
    stripe: nobody else stores to a list of that node in the meantime (see `JobOk`).

    A list keeps exactly the slots that were ever written, so `|slots|` is the high-water mark of
    the list and a reader may use any slot below a count it loaded earlier. */
module LinkProtocol {

  type Id = nat

  datatype Config = Config(m: nat, maxLevel: nat, repairOrphans: bool)

  datatype Key = Key(node: Id, lvl: nat)

  datatype List = List(count: nat, slots: seq<Id>)

  datatype Entry = NoEntry | Entry(id: Id, lvl: nat)

  /** What one traversal has obtained so far: nodes seen on a level, and list sizes it loaded. */
  datatype Walk = Walk(seen: set<Key>, sizes: map<Key, nat>)

  /** Result of the neighbour search, for levels 0 to top: construction candidates and selection. */
  datatype Plan = Plan(cands: seq<seq<Id>>, picks: seq<seq<Id>>)

  /** A list being rewritten under its stripe: slots from `next` on, then the count. */
  datatype Job = Job(target: Key, ids: seq<Id>, next: nat)

  datatype Pc =
    | Idle
    | WantTop
    | Search
    | Write(lvl: nat, next: nat)
    | Link(lvl: nat, pick: nat, hits: nat)
    | Repair(lvl: nat, cand: nat)
    | Store(job: Job, lvl: nat, pick: nat, hits: nat, repairing: bool)
    | Finish
    | Done
    | Failed

  /** One insertion. `placed` is a history variable: the foreign lists it decided to join. */
  datatype Thread = Thread(pc: Pc, entry: Entry, walk: Walk, plan: Plan, placed: set<Key>)

  datatype Holder = Free | HeldBy(id: Id)

  datatype State = State(
    levels: seq<nat>,
    threads: seq<Thread>,
    lists: map<Key, List>,
    entry: Entry,
    top: Holder,
    stripes: map<Id, Id>,
    readers: seq<Walk>)

  datatype WalkStep = LoadCount(k: Key) | LoadSlot(k: Key, i: nat) | Descend(k: Key)

  datatype Action =
    | Grow(level: nat)
    | LoadEntry(x: Id)
    | TakeTop(x: Id)
    | Visit(x: Id, step: WalkStep)
    | Choose(x: Id, plan: Plan)
    | Fail(x: Id)
    | WriteSlot(x: Id)
    | WriteCount(x: Id)
    | AppendLink(x: Id)
    | ShrinkLink(x: Id, ids: seq<Id>)
    | EndLevel(x: Id)
    | RepairAppend(x: Id)
    | RepairSkip(x: Id)
    | RepairEnd(x: Id)
    | StoreSlot(x: Id)
    | StoreCount(x: Id)
    | Publish(x: Id)
    | QueryStart
    | QueryVisit(r: nat, step: WalkStep)
    | QueryEnd(r: nat)

  const EmptyWalk := Walk({}, map[])
  const EmptyPlan := Plan([], [])
  const NewThread := Thread(Idle, NoEntry, EmptyWalk, EmptyPlan, {})
  const Init := State([], [], map[], NoEntry, Free, map[], [])

  function Capacity(cfg: Config, lvl: nat): nat {
    if lvl == 0 then 2 * cfg.m else cfg.m
  }

  ghost predicate Distinct(q: seq<Id>) {
    forall i, j :: 0 <= i < j < |q| ==> q[i] != q[j]
  }

  function StartWalk(e: Entry): Walk
    requires e.Entry?
  {
    Walk({Key(e.id, e.lvl)}, map[])
  }

  predicate InFlight(t: Thread) {
    !(t.pc.Idle? || t.pc.Done? || t.pc.Failed?)
  }

  /** All own lists are written: the insertion may have become visible to others. */
  predicate Public(t: Thread) {
    t.pc.Link? || t.pc.Repair? || t.pc.Store? || t.pc.Finish? || t.pc.Done?
  }

  /** The insertion rises above the entry level it works with. */
  predicate Raises(s: State, x: Id)
    requires x < |s.threads| == |s.levels|
  {
    var e := s.threads[x].entry;
    e.NoEntry? || s.levels[x] > e.lvl
  }

  // ---------------------------------------------------------------------------------------------
  // Transitions
  // ---------------------------------------------------------------------------------------------

  ghost predicate WalkEnabled(s: State, w: Walk, step: WalkStep) {
    match step
    case LoadCount(k) => k in w.seen && k in s.lists
    case LoadSlot(k, i) => k in w.sizes && i < w.sizes[k] && k in s.lists && i < |s.lists[k].slots|
    case Descend(k) => k in w.seen && k.lvl > 0
  }

  ghost function WalkApply(s: State, w: Walk, step: WalkStep): Walk
    requires WalkEnabled(s, w, step)
  {
    match step
    case LoadCount(k) => w.(sizes := w.sizes[k := s.lists[k].count])
    case LoadSlot(k, i) => w.(seen := w.seen + {Key(s.lists[k].slots[i], k.lvl)})
    case Descend(k) => w.(seen := w.seen + {Key(k.node, k.lvl - 1)})
  }

  /** Any outcome that beam search and neighbour selection can have, given the nodes seen. */
  ghost predicate PlanFrom(cfg: Config, s: State, x: Id, plan: Plan)
    requires x < |s.threads| == |s.levels|
  {
    var t := s.threads[x];
    && t.entry.Entry?
    && var top := if s.levels[x] < t.entry.lvl then s.levels[x] else t.entry.lvl;
    && |plan.cands| == |plan.picks| == top + 1
    && forall l :: 0 <= l <= top ==>
         && (forall i :: 0 <= i < |plan.cands[l]| ==> Key(plan.cands[l][i], l) in t.walk.seen)
         && (forall i :: 0 <= i < |plan.picks[l]| ==> plan.picks[l][i] in plan.cands[l])
         && Distinct(plan.picks[l])
         && |plan.picks[l]| <= cfg.m
  }

  /** The selection that `shrink_with` may make when it adds `x` to a full list. */
  ghost predicate Reselection(cfg: Config, list: List, x: Id, lvl: nat, ids: seq<Id>)
    requires list.count <= |list.slots|
  {
    && Distinct(ids)
    && |ids| <= Capacity(cfg, lvl)
    && forall i :: 0 <= i < |ids| ==> ids[i] == x || ids[i] in list.slots[..list.count]
  }

  function PutSlot(list: List, i: nat, id: Id): List
    requires i <= |list.slots|
  {
    if i == |list.slots| then list.(slots := list.slots + [id]) else list.(slots := list.slots[i := id])
  }

  function NextLevel(plan: Plan, lvl: nat): Pc {
    if lvl + 1 < |plan.picks| then Link(lvl + 1, 0, 0) else Finish
  }

  /** The lists of a node that was just reserved. */
  function EmptyLists(n: Id, level: nat): (lists: map<Key, List>)
    ensures forall k :: k in lists <==> k.node == n && k.lvl <= level
    ensures forall k :: k in lists ==> lists[k] == List(0, [])
  {
    if level == 0 then map[Key(n, 0) := List(0, [])]
    else EmptyLists(n, level - 1)[Key(n, level) := List(0, [])]
  }

  function Released(s: State, x: Id): Holder {
    if s.top == HeldBy(x) then Free else s.top
  }

  /** Replaces the thread record of `x`. */
  function With(s: State, x: Id, t: Thread): State
    requires x < |s.threads|
  {
    s.(threads := s.threads[x := t])
  }

  /** A thread starts the neighbour search from entry `e`, or finds nothing to link to. */
  function Begin(t: Thread, e: Entry): Thread {
    if e.NoEntry? then t.(pc := Finish, entry := e)
    else t.(pc := Search, entry := e, walk := StartWalk(e))
  }

  predicate Known(s: State, x: Id) {
    x < |s.threads| == |s.levels|
  }

  // Reading the entry point; an insertion above it takes the top mutex and reads it again.

  predicate CanLoadEntry(s: State, x: Id) { Known(s, x) && s.threads[x].pc.Idle? }

  function DoLoadEntry(s: State, x: Id): State
    requires CanLoadEntry(s, x)
  {
    var t := s.threads[x];
    var e := s.entry;
    if e.NoEntry? || s.levels[x] > e.lvl then With(s, x, t.(pc := WantTop)) else With(s, x, Begin(t, e))
  }

  predicate CanTakeTop(s: State, x: Id) { Known(s, x) && s.threads[x].pc.WantTop? && s.top == Free }

  function DoTakeTop(s: State, x: Id): State
    requires CanTakeTop(s, x)
  {
    With(s, x, Begin(s.threads[x], s.entry)).(top := HeldBy(x))
  }

  // Phase 1: the neighbour search reads published lists; it may run out of memory.

  ghost predicate CanVisit(s: State, x: Id, step: WalkStep) {
    Known(s, x) && s.threads[x].pc.Search? && WalkEnabled(s, s.threads[x].walk, step)
  }

  ghost function DoVisit(s: State, x: Id, step: WalkStep): State
    requires CanVisit(s, x, step)
  {
    var t := s.threads[x];
    With(s, x, t.(walk := WalkApply(s, t.walk, step)))
  }

  ghost predicate CanChoose(cfg: Config, s: State, x: Id, plan: Plan) {
    Known(s, x) && s.threads[x].pc.Search? && PlanFrom(cfg, s, x, plan)
  }

  function DoChoose(s: State, x: Id, plan: Plan): State
    requires x < |s.threads|
  {
    With(s, x, s.threads[x].(pc := Write(0, 0), walk := EmptyWalk, plan := plan))
  }

  predicate CanFail(s: State, x: Id) { Known(s, x) && s.threads[x].pc.Search? }

  function DoFail(s: State, x: Id): State
    requires CanFail(s, x)
  {
    With(s, x, s.threads[x].(pc := Failed, walk := EmptyWalk)).(top := Released(s, x))
  }

  // Phase 2: own lists, slots first and then the count, level by level.

  predicate CanWriteSlot(s: State, x: Id) {
    && Known(s, x) && s.threads[x].pc.Write?
    && var t := s.threads[x];
    && t.pc.lvl < |t.plan.picks| && t.pc.next < |t.plan.picks[t.pc.lvl]|
    && Key(x, t.pc.lvl) in s.lists && t.pc.next <= |s.lists[Key(x, t.pc.lvl)].slots|
  }

  function DoWriteSlot(s: State, x: Id): State
    requires CanWriteSlot(s, x)
  {
    var t := s.threads[x];
    var k := Key(x, t.pc.lvl);
    With(s, x, t.(pc := Write(t.pc.lvl, t.pc.next + 1)))
      .(lists := s.lists[k := PutSlot(s.lists[k], t.pc.next, t.plan.picks[t.pc.lvl][t.pc.next])])
  }

  predicate CanWriteCount(s: State, x: Id) {
    && Known(s, x) && s.threads[x].pc.Write?
    && var t := s.threads[x];
    && t.pc.lvl < |t.plan.picks| && t.pc.next == |t.plan.picks[t.pc.lvl]|
    && Key(x, t.pc.lvl) in s.lists
  }

  function DoWriteCount(s: State, x: Id): State
    requires CanWriteCount(s, x)
  {
    var t := s.threads[x];
    var k := Key(x, t.pc.lvl);
    With(s, x, t.(pc := if t.pc.lvl + 1 < |t.plan.picks| then Write(t.pc.lvl + 1, 0) else Link(0, 0, 0)))
      .(lists := s.lists[k := s.lists[k].(count := t.pc.next)])
  }

  // Phase 3: back-links. Taking the stripe decides what the target list becomes.

  /** The stripe of `target` is free and its list exists. */
  predicate StripeFree(s: State, target: Key) {
    && target.node !in s.stripes && target in s.lists
    && s.lists[target].count <= |s.lists[target].slots|
  }

  /** The list that a linking or repairing thread turns to next. */
  function NextTarget(t: Thread): Key
    requires t.pc.Link? ==> t.pc.lvl < |t.plan.picks| && t.pc.pick < |t.plan.picks[t.pc.lvl]|
    requires t.pc.Repair? ==> t.pc.lvl < |t.plan.cands| && t.pc.cand < |t.plan.cands[t.pc.lvl]|
    requires t.pc.Link? || t.pc.Repair?
  {
    if t.pc.Link? then Key(t.plan.picks[t.pc.lvl][t.pc.pick], t.pc.lvl)
    else Key(t.plan.cands[t.pc.lvl][t.pc.cand], t.pc.lvl)
  }

  predicate AtPick(s: State, x: Id) {
    && Known(s, x) && s.threads[x].pc.Link?
    && var t := s.threads[x];
    && t.pc.lvl < |t.plan.picks| && t.pc.pick < |t.plan.picks[t.pc.lvl]|
    && StripeFree(s, NextTarget(t))
  }

  predicate AtCandidate(s: State, x: Id) {
    && Known(s, x) && s.threads[x].pc.Repair?
    && var t := s.threads[x];
    && t.pc.lvl < |t.plan.cands| && t.pc.cand < |t.plan.cands[t.pc.lvl]|
    && StripeFree(s, NextTarget(t))
  }

  predicate HasRoom(cfg: Config, s: State, k: Key)
    requires k in s.lists
  {
    s.lists[k].count < Capacity(cfg, k.lvl)
  }

  /** Takes the stripe of the target list, which will hold `ids`; slots before `next` stay. */
  function StartStore(s: State, x: Id, job: Job): State
    requires Known(s, x) && (s.threads[x].pc.Link? || s.threads[x].pc.Repair?)
  {
    var t := s.threads[x];
    var pc := if t.pc.Link? then Store(job, t.pc.lvl, t.pc.pick, t.pc.hits, false)
              else Store(job, t.pc.lvl, t.pc.cand, 0, true);
    With(s, x, t.(pc := pc, placed := if x in job.ids then t.placed + {job.target} else t.placed))
      .(stripes := s.stripes[job.target.node := x])
  }

  function AppendJob(s: State, x: Id, target: Key): Job
    requires target in s.lists && s.lists[target].count <= |s.lists[target].slots|
  {
    var list := s.lists[target];
    Job(target, list.slots[..list.count] + [x], list.count)
  }

  predicate CanAppendLink(cfg: Config, s: State, x: Id) {
    AtPick(s, x) && HasRoom(cfg, s, NextTarget(s.threads[x]))
  }

  function DoAppendLink(cfg: Config, s: State, x: Id): State
    requires CanAppendLink(cfg, s, x)
  {
    StartStore(s, x, AppendJob(s, x, NextTarget(s.threads[x])))
  }

  ghost predicate CanShrinkLink(cfg: Config, s: State, x: Id, ids: seq<Id>) {
    && AtPick(s, x) && !HasRoom(cfg, s, NextTarget(s.threads[x]))
    && Reselection(cfg, s.lists[NextTarget(s.threads[x])], x, s.threads[x].pc.lvl, ids)
  }

  ghost function DoShrinkLink(cfg: Config, s: State, x: Id, ids: seq<Id>): State
    requires CanShrinkLink(cfg, s, x, ids)
  {
    StartStore(s, x, Job(NextTarget(s.threads[x]), ids, 0))
  }

  predicate CanEndLevel(s: State, x: Id) {
    && Known(s, x) && s.threads[x].pc.Link?
    && var t := s.threads[x];
    && t.pc.lvl < |t.plan.picks| && t.pc.pick == |t.plan.picks[t.pc.lvl]|
  }

  function DoEndLevel(cfg: Config, s: State, x: Id): State
    requires CanEndLevel(s, x)
  {
    var t := s.threads[x];
    With(s, x, t.(pc := if t.pc.hits == 0 && cfg.repairOrphans then Repair(t.pc.lvl, 0)
                        else NextLevel(t.plan, t.pc.lvl)))
  }

  // Orphan repair: the nearest candidate with room, if any.

  predicate CanRepairAppend(cfg: Config, s: State, x: Id) {
    AtCandidate(s, x) && HasRoom(cfg, s, NextTarget(s.threads[x]))
  }

  function DoRepairAppend(cfg: Config, s: State, x: Id): State
    requires CanRepairAppend(cfg, s, x)
  {
    StartStore(s, x, AppendJob(s, x, NextTarget(s.threads[x])))
  }

  predicate CanRepairSkip(cfg: Config, s: State, x: Id) {
    AtCandidate(s, x) && !HasRoom(cfg, s, NextTarget(s.threads[x]))
  }

  function DoRepairSkip(cfg: Config, s: State, x: Id): State
    requires CanRepairSkip(cfg, s, x)
  {
    var t := s.threads[x];
    With(s, x, t.(pc := Repair(t.pc.lvl, t.pc.cand + 1)))
  }

  predicate CanRepairEnd(s: State, x: Id) {
    && Known(s, x) && s.threads[x].pc.Repair?
    && var t := s.threads[x];
    && t.pc.lvl < |t.plan.cands| && t.pc.cand == |t.plan.cands[t.pc.lvl]|
  }

  function DoRepairEnd(s: State, x: Id): State
    requires CanRepairEnd(s, x)
  {
    var t := s.threads[x];
    With(s, x, t.(pc := NextLevel(t.plan, t.pc.lvl)))
  }

  // Stores under a stripe: the slots that change, then the count, which also frees the stripe.

  predicate CanStoreSlot(s: State, x: Id) {
    && Known(s, x) && s.threads[x].pc.Store?
    && var job := s.threads[x].pc.job;
    && job.next < |job.ids| && job.target in s.lists && job.next <= |s.lists[job.target].slots|
  }

  function DoStoreSlot(s: State, x: Id): State
    requires CanStoreSlot(s, x)
  {
    var t := s.threads[x];
    var job := t.pc.job;
    With(s, x, t.(pc := t.pc.(job := job.(next := job.next + 1))))
      .(lists := s.lists[job.target := PutSlot(s.lists[job.target], job.next, job.ids[job.next])])
  }

  predicate CanStoreCount(s: State, x: Id) {
    && Known(s, x) && s.threads[x].pc.Store?
    && var job := s.threads[x].pc.job;
    && job.next == |job.ids| && job.target in s.lists
  }

  function AfterStore(t: Thread, x: Id): Pc
    requires t.pc.Store?
  {
    if t.pc.repairing then NextLevel(t.plan, t.pc.lvl)
    else Link(t.pc.lvl, t.pc.pick + 1, if x in t.pc.job.ids then t.pc.hits + 1 else t.pc.hits)
  }

  function DoStoreCount(s: State, x: Id): State
    requires CanStoreCount(s, x)
  {
    var t := s.threads[x];
    var job := t.pc.job;
    With(s, x, t.(pc := AfterStore(t, x)))
      .(lists := s.lists[job.target := s.lists[job.target].(count := |job.ids|)],
        stripes := s.stripes - {job.target.node})
  }

  // Phase 4: an insertion above the entry level becomes the entry point.

  predicate CanPublish(s: State, x: Id) { Known(s, x) && s.threads[x].pc.Finish? }

  function DoPublish(s: State, x: Id): State
    requires CanPublish(s, x)
  {
    With(s, x, s.threads[x].(pc := Done))
      .(entry := if Raises(s, x) then Entry(x, s.levels[x]) else s.entry, top := Released(s, x))
  }

  // Reserving rows needs exclusive access; queries come and go while insertions run.

  ghost predicate CanGrow(cfg: Config, s: State, level: nat) {
    && |s.threads| == |s.levels| && level <= cfg.maxLevel && s.readers == []
    && forall i :: 0 <= i < |s.threads| ==> !InFlight(s.threads[i])
  }

  function DoGrow(s: State, level: nat): State {
    s.(levels := s.levels + [level], threads := s.threads + [NewThread],
       lists := s.lists + EmptyLists(|s.threads|, level))
  }

  ghost predicate CanQueryVisit(s: State, r: nat, step: WalkStep) {
    r < |s.readers| && WalkEnabled(s, s.readers[r], step)
  }

  ghost function DoQueryVisit(s: State, r: nat, step: WalkStep): State
    requires CanQueryVisit(s, r, step)
  {
    s.(readers := s.readers[r := WalkApply(s, s.readers[r], step)])
  }

  ghost predicate Enabled(cfg: Config, s: State, a: Action) {
    match a
    case Grow(level) => CanGrow(cfg, s, level)
    case LoadEntry(x) => CanLoadEntry(s, x)
    case TakeTop(x) => CanTakeTop(s, x)
    case Visit(x, step) => CanVisit(s, x, step)
    case Choose(x, plan) => CanChoose(cfg, s, x, plan)
    case Fail(x) => CanFail(s, x)
    case WriteSlot(x) => CanWriteSlot(s, x)
    case WriteCount(x) => CanWriteCount(s, x)
    case AppendLink(x) => CanAppendLink(cfg, s, x)
    case ShrinkLink(x, ids) => CanShrinkLink(cfg, s, x, ids)
    case EndLevel(x) => CanEndLevel(s, x)
    case RepairAppend(x) => CanRepairAppend(cfg, s, x)
    case RepairSkip(x) => CanRepairSkip(cfg, s, x)
    case RepairEnd(x) => CanRepairEnd(s, x)
    case StoreSlot(x) => CanStoreSlot(s, x)
    case StoreCount(x) => CanStoreCount(s, x)
    case Publish(x) => CanPublish(s, x)
    case QueryStart => s.entry.Entry?
    case QueryVisit(r, step) => CanQueryVisit(s, r, step)
    case QueryEnd(r) => r < |s.readers|
  }

  ghost function Apply(cfg: Config, s: State, a: Action): State
    requires Enabled(cfg, s, a)
  {
    match a
    case Grow(level) => DoGrow(s, level)
    case LoadEntry(x) => DoLoadEntry(s, x)
    case TakeTop(x) => DoTakeTop(s, x)
    case Visit(x, step) => DoVisit(s, x, step)
    case Choose(x, plan) => DoChoose(s, x, plan)
    case Fail(x) => DoFail(s, x)
    case WriteSlot(x) => DoWriteSlot(s, x)
    case WriteCount(x) => DoWriteCount(s, x)
    case AppendLink(x) => DoAppendLink(cfg, s, x)
    case ShrinkLink(x, ids) => DoShrinkLink(cfg, s, x, ids)
    case EndLevel(x) => DoEndLevel(cfg, s, x)
    case RepairAppend(x) => DoRepairAppend(cfg, s, x)
    case RepairSkip(x) => DoRepairSkip(cfg, s, x)
    case RepairEnd(x) => DoRepairEnd(s, x)
    case StoreSlot(x) => DoStoreSlot(s, x)
    case StoreCount(x) => DoStoreCount(s, x)
    case Publish(x) => DoPublish(s, x)
    case QueryStart => s.(readers := s.readers + [StartWalk(s.entry)])
    case QueryVisit(r, step) => DoQueryVisit(s, r, step)
    case QueryEnd(r) => s.(readers := s.readers[..r] + s.readers[r + 1..])
  }

  // ---------------------------------------------------------------------------------------------
  // The inductive invariant
  // ---------------------------------------------------------------------------------------------

  /** `y` may stand in a slot of list `k`. */
  predicate TargetOk(s: State, y: Id, k: Key)
  {
    && y < |s.threads| == |s.levels|
    && y != k.node && s.levels[y] >= k.lvl && Public(s.threads[y])
  }

  predicate Picked(t: Thread, y: Id, lvl: nat) {
    lvl < |t.plan.picks| && y in t.plan.picks[lvl]
  }

  /** How `y` came into list `k`: chosen by the owner, or put there by its own insertion. */
  predicate Origin(s: State, y: Id, k: Key) {
    && y < |s.threads| && k.node < |s.threads|
    && (Picked(s.threads[k.node], y, k.lvl) || k in s.threads[y].placed)
  }

  predicate Shape(s: State) {
    && |s.threads| == |s.levels|
    && (forall k :: k in s.lists ==> k.node < |s.levels| && k.lvl <= s.levels[k.node])
    && (forall i, l :: 0 <= i < |s.levels| && 0 <= l <= s.levels[i] ==> Key(i, l) in s.lists)
  }

  predicate Torn(s: State, k: Key) {
    && k.node in s.stripes && s.stripes[k.node] < |s.threads|
    && var pc := s.threads[s.stripes[k.node]].pc;
    && pc.Store? && pc.job.target == k
  }

  ghost predicate ListOk(cfg: Config, s: State, k: Key)
    requires k in s.lists
  {
    var list := s.lists[k];
    && list.count <= |list.slots| <= Capacity(cfg, k.lvl)
    && (forall i :: 0 <= i < |list.slots| ==> TargetOk(s, list.slots[i], k) && Origin(s, list.slots[i], k))
    && (!Torn(s, k) ==> Distinct(list.slots[..list.count]))
  }

  ghost predicate WalkOk(s: State, w: Walk) {
    && (forall k :: k in w.seen ==> k in s.lists && k.node < |s.threads| && Public(s.threads[k.node]))
    && (forall k :: k in w.sizes ==> k in s.lists && w.sizes[k] <= |s.lists[k].slots|)
  }

  /** Candidates are published, reach their level, and cannot have picked `x` themselves. */
  ghost predicate PlanOk(cfg: Config, s: State, x: Id) {
    && x < |s.threads| == |s.levels|
    && var plan := s.threads[x].plan;
    && |plan.cands| == |plan.picks| <= s.levels[x] + 1
    && forall l :: 0 <= l < |plan.cands| ==>
         && (forall i :: 0 <= i < |plan.cands[l]| ==>
               CandidateOk(s, x, plan.cands[l][i], l))
         && (forall i :: 0 <= i < |plan.picks[l]| ==> plan.picks[l][i] in plan.cands[l])
         && Distinct(plan.picks[l])
         && |plan.picks[l]| <= cfg.m
  }

  ghost predicate CandidateOk(s: State, x: Id, c: Id, l: nat) {
    && TargetOk(s, c, Key(x, l))
    && Key(c, l) in s.lists
    && forall l' :: !Picked(s.threads[c], x, l')
  }

  ghost predicate JobOk(cfg: Config, s: State, x: Id)
    requires x < |s.threads|
  {
    var t := s.threads[x];
    t.pc.Store? ==>
      var job := t.pc.job;
      && job.target in s.lists
      && job.target.node in s.stripes && s.stripes[job.target.node] == x
      && job.target.node < |s.threads| && Public(s.threads[job.target.node])
      && job.next <= |job.ids| <= Capacity(cfg, job.target.lvl)
      && job.next <= |s.lists[job.target].slots|
      && job.ids[..job.next] == s.lists[job.target].slots[..job.next]
      && Distinct(job.ids)
      && forall i :: 0 <= i < |job.ids| ==> JobIdOk(s, job.ids[i], job.target)
  }

  predicate JobIdOk(s: State, y: Id, k: Key) {
    TargetOk(s, y, k) && Origin(s, y, k)
  }

  /** Where the insertion may already have put itself, by progress. */
  ghost predicate PlacedOk(t: Thread) {
    match t.pc
    case Link(l, j, hits) =>
      && l < |t.plan.picks| == |t.plan.cands| && j <= |t.plan.picks[l]|
      && forall k :: k in t.placed ==>
           k.lvl < l || (k.lvl == l && hits > 0 && k.node in t.plan.picks[l][..j])
    case Store(job, l, j, hits, repairing) =>
      && l < |t.plan.picks| == |t.plan.cands| && job.target.lvl == l
      && (if repairing then j < |t.plan.cands[l]| && job.target.node == t.plan.cands[l][j] && hits == 0
          else j < |t.plan.picks[l]| && job.target.node == t.plan.picks[l][j])
      && forall k :: k in t.placed ==>
           || k.lvl < l
           || (k.lvl == l && !repairing && hits > 0 && k.node in t.plan.picks[l][..j])
           || k == job.target
    case Repair(l, c) =>
      && l < |t.plan.cands| == |t.plan.picks| && c <= |t.plan.cands[l]|
      && forall k :: k in t.placed ==> k.lvl < l
    case Finish => true
    case Done => true
    case _ => t.placed == {}
  }

  /** History and rewrite agree on whether the list will hold the inserting node. */
  ghost predicate SelfTracked(s: State, x: Id)
    requires x < |s.threads|
  {
    var t := s.threads[x];
    t.pc.Store? ==> (x in t.pc.job.ids <==> t.pc.job.target in t.placed)
  }

  ghost predicate EntryOk(s: State, x: Id)
    requires x < |s.threads| == |s.levels|
  {
    var t := s.threads[x];
    && (t.pc.Done? ==> s.entry.Entry? && s.levels[x] <= s.entry.lvl)
    && (InFlight(t) && !t.pc.WantTop? ==>
          && (t.entry.NoEntry? ==> t.pc.Finish?)
          && (t.entry.Entry? ==> s.entry.Entry? && t.entry.lvl <= s.entry.lvl)
          && (Raises(s, x) ==> s.top == HeldBy(x) && s.entry == t.entry))
    && (s.top == HeldBy(x) ==> InFlight(t) && !t.pc.WantTop?)
  }

  /** Own lists before publication: empty, or written as far as phase 2 has come. */
  ghost predicate OwnLists(s: State, x: Id)
    requires x < |s.threads| == |s.levels|
  {
    var t := s.threads[x];
    !Public(t) ==>
      forall l :: 0 <= l <= s.levels[x] && Key(x, l) in s.lists ==>
        OwnList(t, l, s.lists[Key(x, l)])
  }

  predicate OwnList(t: Thread, l: nat, list: List) {
    if !t.pc.Write? || l > t.pc.lvl || l >= |t.plan.picks| then list == List(0, [])
    else if l == t.pc.lvl then
      t.pc.next <= |t.plan.picks[l]| && list == List(0, t.plan.picks[l][..t.pc.next])
    else list == List(|t.plan.picks[l]|, t.plan.picks[l])
  }

  ghost predicate ThreadOk(cfg: Config, s: State, x: Id)
    requires x < |s.threads| == |s.levels|
  {
    var t := s.threads[x];
    && WalkOk(s, t.walk)
    && PlanOk(cfg, s, x)
    && (t.pc.Idle? || t.pc.WantTop? || t.pc.Search? || t.pc.Failed? ==> t.plan == EmptyPlan)
    && (t.pc.Write? ==> t.pc.lvl < |t.plan.picks| && t.pc.next <= |t.plan.picks[t.pc.lvl]|)
    && JobOk(cfg, s, x)
    && PlacedOk(t)
    && SelfTracked(s, x)
    && EntryOk(s, x)
    && OwnLists(s, x)
  }

  predicate EntryPoint(s: State) {
    s.entry.Entry? ==>
      && s.entry.id < |s.threads| == |s.levels|
      && s.levels[s.entry.id] == s.entry.lvl
      && s.threads[s.entry.id].pc.Done?
  }

  predicate StripesOk(s: State) {
    forall n :: n in s.stripes ==>
      && s.stripes[n] < |s.threads|
      && var pc := s.threads[s.stripes[n]].pc;
         pc.Store? && pc.job.target.node == n
  }

  ghost predicate Inv(cfg: Config, s: State) {
    && Shape(s)
    && EntryPoint(s)
    && StripesOk(s)
    && (s.top.HeldBy? ==> s.top.id < |s.threads|)
    && (forall x :: 0 <= x < |s.threads| ==> ThreadOk(cfg, s, x))
    && (forall k :: k in s.lists ==> ListOk(cfg, s, k))
    && (forall r :: 0 <= r < |s.readers| ==> WalkOk(s, s.readers[r]))
  }
}
