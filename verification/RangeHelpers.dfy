/** The caller of `run_ranges` and its helpers, one shared access at a time, over every interleaving. */
module RangeHelpers {

  /**
    * Where a participant is. Participant 0 is the caller, which first allocates the block it shares with the others;
    * those are helpers, born when the caller counts them and queued on the pool after that.
    */
  datatype Pc =
    | Unborn
    | Sharing
    | Counted
    | Queued
    | Spawning
    | AtCheck
    | AtFetch
    | Running(chunk: nat)
    | Throwing(chunk: nat)
    | Recorded
    | Leaving
    | Asleep
    | Awake
    | Gone

  /**
    * `begun` lists the chunks in the order they were taken; `finished` and `thrown` say how they ended. `unshared` says
    * that the shared block could not be allocated.
    */
  datatype State = State(
    chunks: nat,
    pcs: seq<Pc>,
    spawned: nat,
    next: nat,
    failed: bool,
    error: bool,
    running: nat,
    begun: seq<nat>,
    finished: set<nat>,
    thrown: set<nat>,
    unshared: bool)

  datatype Action =
    | Share(granted: bool) | Count | Enqueue(queued: bool) | StartOwn
    | Begin(i: nat) | Check(i: nat) | Fetch(i: nat) | Finish(i: nat) | Throw(i: nat) | Record(i: nat) | Fail(i: nat)
    | Leave(i: nat) | Wait

  function Init(chunks: nat, helpers: nat): State {
    State(chunks, [Sharing] + seq(helpers, _ => Unborn), 0, 0, false, false, 0, [], {}, {}, false)
  }

  // ----- steps -----

  predicate At(s: State, i: nat, pc: Pc) {
    i < |s.pcs| && s.pcs[i] == pc
  }

  predicate InChunk(pc: Pc) {
    pc.Running? || pc.Throwing?
  }

  function Moved(s: State, i: nat, pc: Pc): State
    requires i < |s.pcs|
  {
    s.(pcs := s.pcs[i := pc])
  }

  /** The helper the caller is about to count or queue. */
  function NextHelper(s: State): nat {
    s.spawned + 1
  }

  predicate Enabled(s: State, a: Action) {
    match a
    case Share(_) => At(s, 0, Sharing)
    case Count => At(s, 0, Spawning) && At(s, NextHelper(s), Unborn)
    case Enqueue(_) => At(s, 0, Spawning) && At(s, NextHelper(s), Counted) && s.running > 0
    case StartOwn => At(s, 0, Spawning) && NextHelper(s) == |s.pcs|
    case Begin(i) => At(s, i, Queued)
    case Check(i) => At(s, i, AtCheck)
    case Fetch(i) => At(s, i, AtFetch)
    case Finish(i) => i < |s.pcs| && s.pcs[i].Running?
    case Throw(i) => i < |s.pcs| && s.pcs[i].Running?
    case Record(i) => i < |s.pcs| && s.pcs[i].Throwing?
    case Fail(i) => At(s, i, Recorded)
    case Leave(i) => i > 0 && At(s, i, Leaving) && s.running > 0
    case Wait => At(s, 0, Leaving) || At(s, 0, Awake)
  }

  /** The queue may refuse a helper (the pool is stopping, or memory is short); the caller then stops spawning. */
  function DoEnqueue(s: State, queued: bool): State
    requires Enabled(s, Enqueue(queued))
  {
    if queued then Moved(s, NextHelper(s), Queued).(spawned := s.spawned + 1)
    else Moved(Moved(s, NextHelper(s), Gone), 0, AtCheck).(running := s.running - 1)
  }

  /** Without the shared block the call fails before anything else happens. */
  function DoShare(s: State, granted: bool): State
    requires Enabled(s, Share(granted))
  {
    if granted then Moved(s, 0, Spawning) else Moved(s, 0, Gone).(error := true, unshared := true)
  }

  function DoFetch(s: State, i: nat): State
    requires Enabled(s, Fetch(i))
  {
    if s.next >= s.chunks then Moved(s, i, Leaving).(next := s.next + 1)
    else Moved(s, i, Running(s.next)).(next := s.next + 1, begun := s.begun + [s.next])
  }

  /** A helper counts itself out under the lock and wakes the caller. */
  function DoLeave(s: State, i: nat): State
    requires Enabled(s, Leave(i))
  {
    var out := Moved(s, i, Gone).(running := s.running - 1);
    if At(out, 0, Asleep) then Moved(out, 0, Awake) else out
  }

  function Do(s: State, a: Action): State
    requires Enabled(s, a)
  {
    match a
    case Share(granted) => DoShare(s, granted)
    case Count => Moved(s, NextHelper(s), Counted).(running := s.running + 1)
    case Enqueue(queued) => DoEnqueue(s, queued)
    case StartOwn => Moved(s, 0, AtCheck)
    case Begin(i) => Moved(s, i, AtCheck)
    case Check(i) => Moved(s, i, if s.failed then Leaving else AtFetch)
    case Fetch(i) => DoFetch(s, i)
    case Finish(i) => Moved(s, i, AtCheck).(finished := s.finished + {s.pcs[i].chunk})
    case Throw(i) => Moved(s, i, Throwing(s.pcs[i].chunk))
    case Record(i) => Moved(s, i, Recorded).(error := true, thrown := s.thrown + {s.pcs[i].chunk})
    case Fail(i) => Moved(s, i, Leaving).(failed := true)
    case Leave(i) => DoLeave(s, i)
    case Wait => Moved(s, 0, if s.running == 0 then Gone else Asleep)
  }

  // ----- the invariant -----

  predicate LiveHelper(pc: Pc) {
    !pc.Unborn? && !pc.Gone?
  }

  /** Helpers among the first `n` participants that are counted and not yet counted out. */
  function LiveCount(pcs: seq<Pc>, n: nat): nat
    requires n <= |pcs|
  {
    if n <= 1 then 0 else LiveCount(pcs, n - 1) + if LiveHelper(pcs[n - 1]) then 1 else 0
  }

  predicate CallerDone(pc: Pc) {
    pc.Leaving? || pc.Asleep? || pc.Awake? || pc.Gone?
  }

  predicate HelperState(pc: Pc) {
    !pc.Sharing? && !pc.Spawning? && !pc.Asleep? && !pc.Awake?
  }

  predicate CallerState(pc: Pc) {
    !pc.Unborn? && !pc.Counted? && !pc.Queued?
  }

  /** The caller has nothing to share, yet or for good. */
  predicate Alone(s: State)
    requires |s.pcs| > 0
  {
    s.pcs[0].Sharing? || s.unshared
  }

  /** Participants are in states of their own kind; while the caller spawns, later helpers are unborn. */
  ghost predicate Roles(s: State) {
    && |s.pcs| > 0 && CallerState(s.pcs[0])
    && (forall i: nat | 0 < i < |s.pcs| :: HelperState(s.pcs[i]))
    && (forall i: nat | 0 < i < |s.pcs| && s.pcs[i].Counted? :: s.pcs[0].Spawning? && i == NextHelper(s))
    && (s.pcs[0].Spawning? ==> s.spawned < |s.pcs| && (At(s, NextHelper(s), Unborn) || At(s, NextHelper(s), Counted) || NextHelper(s) == |s.pcs|)
                               && forall i: nat | s.spawned + 1 < i < |s.pcs| :: s.pcs[i].Unborn?)
    && (Alone(s) ==> s.next == 0 && s.begun == [] && s.spawned == 0 && forall i: nat | 0 < i < |s.pcs| :: s.pcs[i].Unborn?)
    && (s.unshared ==> s.pcs[0].Gone?)
  }

  /** Chunks are taken in order, each by one participant, and every one taken is being run or has ended. */
  ghost predicate Chunks(s: State) {
    && s.begun == seq(if s.next < s.chunks then s.next else s.chunks, c => c)
    && (forall i: nat | i < |s.pcs| && InChunk(s.pcs[i]) ::
          s.pcs[i].chunk < |s.begun| && s.pcs[i].chunk !in s.finished && s.pcs[i].chunk !in s.thrown)
    && (forall i: nat, j: nat | i < j < |s.pcs| && InChunk(s.pcs[i]) && InChunk(s.pcs[j]) :: s.pcs[i].chunk != s.pcs[j].chunk)
    && (forall c: nat | c < |s.begun| :: c in s.finished || c in s.thrown || SomeoneIn(s, c))
    && (forall c <- s.finished :: c < |s.begun|) && (forall c <- s.thrown :: c < |s.begun|)
    && s.finished !! s.thrown
  }

  predicate SomeoneIn(s: State, c: nat) {
    exists i: nat :: i < |s.pcs| && InChunk(s.pcs[i]) && s.pcs[i].chunk == c
  }

  /** The flags: an error is recorded before it is announced, and nobody stops early without one. */
  ghost predicate Flags(s: State) {
    && (s.failed ==> s.error) && (s.error <==> s.thrown != {} || s.unshared)
    && (forall i: nat | i < |s.pcs| && s.pcs[i].Recorded? :: s.error)
    && (|s.pcs| > 0 && CallerDone(s.pcs[0]) ==> s.failed || s.next >= s.chunks || s.unshared)
  }

  ghost predicate Waiting(s: State) {
    && s.running == LiveCount(s.pcs, |s.pcs|)
    && (At(s, 0, Asleep) ==> s.running > 0)
    && (At(s, 0, Gone) ==> s.running == 0)
  }

  ghost predicate Inv(s: State) {
    Roles(s) && Chunks(s) && Flags(s) && Waiting(s)
  }

  lemma InitInv(chunks: nat, helpers: nat)
    ensures Inv(Init(chunks, helpers))
  {
    var s := Init(chunks, helpers);
    NoneLive(s.pcs, |s.pcs|);
    assert s.begun == seq(0, c => c);
  }

  lemma {:induction false} NoneLive(pcs: seq<Pc>, n: nat)
    requires n <= |pcs| && forall i: nat | 0 < i < n :: !LiveHelper(pcs[i])
    ensures LiveCount(pcs, n) == 0
  {
    if n > 1 {
      NoneLive(pcs, n - 1);
    }
  }

  lemma {:induction false} LiveCountAfter(pcs: seq<Pc>, i: nat, pc: Pc, n: nat)
    requires n <= |pcs| && i < |pcs|
    ensures LiveCount(pcs[i := pc], n) == LiveCount(pcs, n)
      + (if 0 < i < n then (if LiveHelper(pc) then 1 else 0) - (if LiveHelper(pcs[i]) then 1 else 0) else 0)
  {
    if n > 1 {
      LiveCountAfter(pcs, i, pc, n - 1);
    }
  }

  lemma {:induction false} LiveIsCounted(pcs: seq<Pc>, i: nat, n: nat)
    requires 0 < i < n <= |pcs| && LiveHelper(pcs[i])
    ensures LiveCount(pcs, n) > 0
  {
    if i < n - 1 {
      LiveIsCounted(pcs, i, n - 1);
    }
  }

  // ----- every step keeps it -----

  /** A step that moves one participant, with no chunk involved. */
  lemma PlainMoveKeepsChunks(s: State, i: nat, pc: Pc)
    requires Chunks(s) && i < |s.pcs| && !InChunk(s.pcs[i]) && !InChunk(pc)
    ensures Chunks(Moved(s, i, pc))
  {
    var t := Moved(s, i, pc);
    forall c: nat | c < |s.begun| && SomeoneIn(s, c)
      ensures SomeoneIn(t, c)
    {
      var j: nat :| j < |s.pcs| && InChunk(s.pcs[j]) && s.pcs[j].chunk == c;
      assert t.pcs[j] == s.pcs[j];
    }
  }

  lemma FetchKeepsChunks(s: State, i: nat)
    requires Chunks(s) && Enabled(s, Fetch(i))
    ensures Chunks(DoFetch(s, i))
  {
    var t := DoFetch(s, i);
    if s.next >= s.chunks {
      PlainMoveKeepsChunks(s, i, Leaving);
    } else {
      assert t.begun == seq(s.next + 1, c => c);
      forall c: nat | c < |t.begun|
        ensures c in t.finished || c in t.thrown || SomeoneIn(t, c)
      {
        if c == s.next {
          assert InChunk(t.pcs[i]) && t.pcs[i].chunk == c;
        } else if SomeoneIn(s, c) {
          var j: nat :| j < |s.pcs| && InChunk(s.pcs[j]) && s.pcs[j].chunk == c;
          assert t.pcs[j] == s.pcs[j];
        }
      }
    }
  }

  lemma EndKeepsChunks(s: State, i: nat, pc: Pc, finished: bool)
    requires Chunks(s) && i < |s.pcs| && InChunk(s.pcs[i]) && !InChunk(pc)
    ensures finished ==> Chunks(Moved(s, i, pc).(finished := s.finished + {s.pcs[i].chunk}))
    ensures !finished ==> forall e: bool :: Chunks(Moved(s, i, pc).(error := e, thrown := s.thrown + {s.pcs[i].chunk}))
  {
    var t := Moved(s, i, pc);
    forall c: nat | c < |s.begun| && c != s.pcs[i].chunk && SomeoneIn(s, c)
      ensures SomeoneIn(t, c)
    {
      var j: nat :| j < |s.pcs| && InChunk(s.pcs[j]) && s.pcs[j].chunk == c;
      assert t.pcs[j] == s.pcs[j];
    }
  }

  lemma ThrowKeepsChunks(s: State, i: nat)
    requires Chunks(s) && Enabled(s, Throw(i))
    ensures Chunks(Moved(s, i, Throwing(s.pcs[i].chunk)))
  {
    var t := Moved(s, i, Throwing(s.pcs[i].chunk));
    forall c: nat | c < |s.begun| && SomeoneIn(s, c)
      ensures SomeoneIn(t, c)
    {
      var j: nat :| j < |s.pcs| && InChunk(s.pcs[j]) && s.pcs[j].chunk == c;
      assert InChunk(t.pcs[j]) && t.pcs[j].chunk == c;
    }
  }

  lemma EnqueueKeepsChunks(s: State, queued: bool)
    requires Chunks(s) && Enabled(s, Enqueue(queued))
    ensures Chunks(DoEnqueue(s, queued))
  {
    hide Chunks;
    if queued {
      PlainMoveKeepsChunks(s, NextHelper(s), Queued);
      SameChunks(Moved(s, NextHelper(s), Queued), DoEnqueue(s, queued));
    } else {
      PlainMoveKeepsChunks(s, NextHelper(s), Gone);
      var t := Moved(s, NextHelper(s), Gone);
      PlainMoveKeepsChunks(t, 0, AtCheck);
      SameChunks(Moved(t, 0, AtCheck), DoEnqueue(s, queued));
    }
  }

  lemma LeaveKeepsChunks(s: State, i: nat)
    requires Chunks(s) && Enabled(s, Leave(i))
    ensures Chunks(DoLeave(s, i))
  {
    hide Chunks;
    PlainMoveKeepsChunks(s, i, Gone);
    var t := Moved(s, i, Gone).(running := s.running - 1);
    SameChunks(Moved(s, i, Gone), t);
    if At(t, 0, Asleep) {
      PlainMoveKeepsChunks(t, 0, Awake);
    }
  }

  lemma StepKeepsChunks(s: State, a: Action)
    requires Chunks(s) && Enabled(s, a)
    ensures Chunks(Do(s, a))
  {
    hide Chunks;
    match a
    case Share(granted) =>
      PlainMoveKeepsChunks(s, 0, if granted then Spawning else Gone);
      SameChunks(Moved(s, 0, if granted then Spawning else Gone), Do(s, a));
    case Count => PlainMoveKeepsChunks(s, NextHelper(s), Counted); SameChunks(Moved(s, NextHelper(s), Counted), Do(s, a));
    case Enqueue(queued) => EnqueueKeepsChunks(s, queued);
    case StartOwn => PlainMoveKeepsChunks(s, 0, AtCheck);
    case Begin(i) => PlainMoveKeepsChunks(s, i, AtCheck);
    case Check(i) => PlainMoveKeepsChunks(s, i, if s.failed then Leaving else AtFetch);
    case Fetch(i) => FetchKeepsChunks(s, i);
    case Finish(i) => EndKeepsChunks(s, i, AtCheck, true);
    case Throw(i) => ThrowKeepsChunks(s, i);
    case Record(i) => EndKeepsChunks(s, i, Recorded, false);
    case Fail(i) => PlainMoveKeepsChunks(s, i, Leaving); SameChunks(Moved(s, i, Leaving), Do(s, a));
    case Leave(i) => LeaveKeepsChunks(s, i);
    case Wait => PlainMoveKeepsChunks(s, 0, if s.running == 0 then Gone else Asleep);
  }

  lemma SameChunks(s: State, t: State)
    requires Chunks(s) && t.pcs == s.pcs && t.begun == s.begun && t.finished == s.finished && t.thrown == s.thrown
    requires t.chunks == s.chunks && t.next == s.next
    ensures Chunks(t)
  {
    forall c: nat | SomeoneIn(s, c)
      ensures SomeoneIn(t, c)
    {
    }
  }

  /** A participant that is past spawning moves on. */
  lemma PlainMoveKeepsRoles(s: State, i: nat, pc: Pc)
    requires Roles(s) && i < |s.pcs| && HelperState(pc) && CallerState(pc)
    requires !s.pcs[i].Counted? && !s.pcs[i].Unborn? && !s.pcs[i].Sharing? && !s.pcs[i].Gone?
    requires i == 0 && s.pcs[0].Spawning? ==> NextHelper(s) == |s.pcs|
    ensures Roles(Moved(s, i, pc))
  {
  }

  lemma CallerMoveKeepsRoles(s: State, pc: Pc)
    requires Roles(s) && !s.pcs[0].Spawning? && !s.pcs[0].Gone? && CallerState(pc) && !pc.Spawning? && !pc.Sharing?
    ensures Roles(Moved(s, 0, pc))
  {
  }

  lemma SameRoles(s: State, t: State)
    requires Roles(s) && t.pcs == s.pcs && t.spawned == s.spawned && t.unshared == s.unshared && !Alone(s)
    ensures Roles(t)
  {
  }

  lemma SpawnKeepsRoles(s: State, a: Action)
    requires Roles(s) && Enabled(s, a) && (a.Count? || a.Enqueue?)
    ensures Roles(Do(s, a))
  {
  }

  lemma ShareKeepsRoles(s: State, granted: bool)
    requires Roles(s) && Enabled(s, Share(granted))
    ensures Roles(DoShare(s, granted))
  {
  }

  lemma ChunkKeepsRoles(s: State, a: Action)
    requires Roles(s) && Enabled(s, a) && ChunkStep(a)
    ensures Roles(Do(s, a))
  {
    hide Roles;
    RolesStart(s);
    match a
    case Begin(i) => PlainMoveKeepsRoles(s, i, AtCheck);
    case Check(i) => PlainMoveKeepsRoles(s, i, if s.failed then Leaving else AtFetch);
    case Fetch(i) =>
      var t := Moved(s, i, if s.next >= s.chunks then Leaving else Running(s.next));
      PlainMoveKeepsRoles(s, i, if s.next >= s.chunks then Leaving else Running(s.next));
      SameRoles(t, Do(s, a));
    case Finish(i) => PlainMoveKeepsRoles(s, i, AtCheck); SameRoles(Moved(s, i, AtCheck), Do(s, a));
    case Throw(i) => PlainMoveKeepsRoles(s, i, Throwing(s.pcs[i].chunk));
    case Record(i) => PlainMoveKeepsRoles(s, i, Recorded); SameRoles(Moved(s, i, Recorded), Do(s, a));
    case Fail(i) => PlainMoveKeepsRoles(s, i, Leaving); SameRoles(Moved(s, i, Leaving), Do(s, a));
    case _ =>
  }

  lemma CallerKeepsRoles(s: State, a: Action)
    requires Roles(s) && Enabled(s, a) && !ChunkStep(a)
    ensures Roles(Do(s, a))
  {
    hide Roles;
    RolesStart(s);
    match a
    case Share(granted) => ShareKeepsRoles(s, granted);
    case Count => SpawnKeepsRoles(s, a);
    case Enqueue(_) => SpawnKeepsRoles(s, a);
    case StartOwn => PlainMoveKeepsRoles(s, 0, AtCheck);
    case Leave(i) =>
      PlainMoveKeepsRoles(s, i, Gone);
      var t := Moved(s, i, Gone).(running := s.running - 1);
      SameRoles(Moved(s, i, Gone), t);
      if At(t, 0, Asleep) {
        CallerMoveKeepsRoles(t, Awake);
      }
    case Wait => CallerMoveKeepsRoles(s, if s.running == 0 then Gone else Asleep);
    case _ =>
  }

  lemma StepKeepsRoles(s: State, a: Action)
    requires Roles(s) && Enabled(s, a)
    ensures Roles(Do(s, a))
  {
    hide Roles, Do, Enabled;
    if ChunkStep(a) {
      ChunkKeepsRoles(s, a);
    } else {
      CallerKeepsRoles(s, a);
    }
  }

  lemma RolesStart(s: State)
    requires Roles(s)
    ensures |s.pcs| > 0
    ensures forall i: nat | i < |s.pcs| && !s.pcs[i].Unborn? && !s.pcs[i].Gone? && !s.pcs[i].Sharing? :: !Alone(s)
  {
  }

  /** A step by which a participant begins or goes through a chunk. */
  predicate ChunkStep(a: Action) {
    a.Begin? || a.Check? || a.Fetch? || a.Finish? || a.Throw? || a.Record? || a.Fail?
  }

  lemma StepKeepsFlags(s: State, a: Action)
    requires Flags(s) && Enabled(s, a)
    ensures Flags(Do(s, a))
  {
    hide Flags;
    if ChunkStep(a) {
      ChunkKeepsFlags(s, a);
    } else {
      CallerKeepsFlags(s, a);
    }
  }

  lemma CallerKeepsFlags(s: State, a: Action)
    requires Flags(s) && Enabled(s, a) && !ChunkStep(a)
    ensures Flags(Do(s, a))
  {
  }

  lemma ChunkKeepsFlags(s: State, a: Action)
    requires Flags(s) && Enabled(s, a) && ChunkStep(a)
    ensures Flags(Do(s, a))
  {
  }

  /** The helper count a step has to keep up with: moving participant `i` to `pc`. */
  lemma MoveKeepsWaiting(s: State, i: nat, pc: Pc, running: nat)
    requires Waiting(s) && i < |s.pcs|
    requires running == s.running
      + (if i > 0 then (if LiveHelper(pc) then 1 else 0) - (if LiveHelper(s.pcs[i]) then 1 else 0) else 0)
    requires if i == 0 then (pc.Asleep? ==> running > 0) && (pc.Gone? ==> running == 0)
             else running == s.running || (!s.pcs[0].Asleep? && !s.pcs[0].Gone?)
    ensures Waiting(Moved(s, i, pc).(running := running))
  {
    hide LiveCount;
    LiveCountAfter(s.pcs, i, pc, |s.pcs|);
  }

  lemma SameWaiting(s: State, t: State)
    requires Waiting(s) && t.pcs == s.pcs && t.running == s.running
    ensures Waiting(t)
  {
  }

  lemma LeaveKeepsWaiting(s: State, i: nat)
    requires Waiting(s) && Enabled(s, Leave(i))
    ensures Waiting(DoLeave(s, i))
  {
    hide LiveCount;
    var pcs := s.pcs[i := Gone];
    LiveCountAfter(s.pcs, i, Gone, |s.pcs|);
    LiveCountAfter(pcs, 0, Awake, |pcs|);
  }

  lemma ShareKeepsWaiting(s: State, granted: bool)
    requires Waiting(s) && Roles(s) && Enabled(s, Share(granted))
    ensures Waiting(DoShare(s, granted))
  {
    hide LiveCount;
    NoneLive(s.pcs, |s.pcs|);
    LiveCountAfter(s.pcs, 0, if granted then Spawning else Gone, |s.pcs|);
  }

  lemma ChunkKeepsWaiting(s: State, a: Action)
    requires Waiting(s) && Roles(s) && Enabled(s, a) && ChunkStep(a)
    ensures Waiting(Do(s, a))
  {
    hide Waiting, LiveCount, Roles;
    match a
    case Begin(i) => MoveKeepsWaiting(s, i, AtCheck, s.running);
    case Check(i) => MoveKeepsWaiting(s, i, if s.failed then Leaving else AtFetch, s.running);
    case Fetch(i) =>
      var pc := if s.next >= s.chunks then Leaving else Running(s.next);
      MoveKeepsWaiting(s, i, pc, s.running);
      SameWaiting(Moved(s, i, pc).(running := s.running), Do(s, a));
    case Finish(i) => MoveKeepsWaiting(s, i, AtCheck, s.running); SameWaiting(Moved(s, i, AtCheck).(running := s.running), Do(s, a));
    case Throw(i) => MoveKeepsWaiting(s, i, Throwing(s.pcs[i].chunk), s.running);
    case Record(i) => MoveKeepsWaiting(s, i, Recorded, s.running); SameWaiting(Moved(s, i, Recorded).(running := s.running), Do(s, a));
    case Fail(i) => MoveKeepsWaiting(s, i, Leaving, s.running); SameWaiting(Moved(s, i, Leaving).(running := s.running), Do(s, a));
    case _ =>
  }

  lemma CallerKeepsWaiting(s: State, a: Action)
    requires Waiting(s) && Roles(s) && Enabled(s, a) && !ChunkStep(a)
    ensures Waiting(Do(s, a))
  {
    hide Waiting, LiveCount, Roles;
    match a
    case Share(granted) => ShareKeepsWaiting(s, granted);
    case Count => MoveKeepsWaiting(s, NextHelper(s), Counted, s.running + 1);
    case Enqueue(queued) =>
      if queued {
        MoveKeepsWaiting(s, NextHelper(s), Queued, s.running);
        SameWaiting(Moved(s, NextHelper(s), Queued).(running := s.running), Do(s, a));
      } else {
        var t := Moved(s, NextHelper(s), Gone).(running := s.running - 1);
        MoveKeepsWaiting(s, NextHelper(s), Gone, s.running - 1);
        MoveKeepsWaiting(t, 0, AtCheck, t.running);
      }
    case StartOwn => MoveKeepsWaiting(s, 0, AtCheck, s.running);
    case Leave(i) => LeaveKeepsWaiting(s, i);
    case Wait => MoveKeepsWaiting(s, 0, if s.running == 0 then Gone else Asleep, s.running);
    case _ =>
  }

  lemma StepKeepsWaiting(s: State, a: Action)
    requires Waiting(s) && Roles(s) && Enabled(s, a)
    ensures Waiting(Do(s, a))
  {
    hide Waiting, Roles, Do, Enabled;
    if ChunkStep(a) {
      ChunkKeepsWaiting(s, a);
    } else {
      CallerKeepsWaiting(s, a);
    }
  }

  lemma StepKeepsInv(s: State, a: Action)
    requires Inv(s) && Enabled(s, a)
    ensures Inv(Do(s, a))
  {
    hide Roles, Chunks, Flags, Waiting, Do, Enabled;
    StepKeepsRoles(s, a);
    StepKeepsChunks(s, a);
    StepKeepsFlags(s, a);
    StepKeepsWaiting(s, a);
  }

  // ----- whole runs -----

  /** `run` lists the steps from the last one back to the first. */
  ghost predicate Reaches(start: State, run: seq<Action>, s: State) {
    if run == [] then s == start
    else exists before: State :: Reaches(start, run[1..], before) && Steps(before, run[0], s)
  }

  predicate Steps(s: State, a: Action, t: State) {
    Enabled(s, a) && t == Do(s, a)
  }

  lemma {:induction false} RunKeepsInv(start: State, run: seq<Action>, s: State)
    requires Inv(start) && Reaches(start, run, s)
    ensures Inv(s)
  {
    hide Inv, Steps;
    if run != [] {
      var before :| Reaches(start, run[1..], before) && Steps(before, run[0], s);
      RunKeepsInv(start, run[1..], before);
      OneStep(before, run[0], s);
    }
  }

  lemma OneStep(s: State, a: Action, t: State)
    requires Inv(s) && Steps(s, a, t)
    ensures Inv(t)
  {
    hide Inv, Do;
    StepKeepsInv(s, a);
  }

  /** The number of chunks is fixed when the run starts. */
  lemma {:induction false} ChunksStay(start: State, run: seq<Action>, s: State)
    requires Reaches(start, run, s)
    ensures s.chunks == start.chunks
  {
    if run != [] {
      hide Do, Enabled;
      var before :| Reaches(start, run[1..], before) && Steps(before, run[0], s);
      ChunksStay(start, run[1..], before);
      ChunksUnchanged(before, run[0]);
    }
  }

  lemma ChunksUnchanged(s: State, a: Action)
    requires Enabled(s, a)
    ensures Do(s, a).chunks == s.chunks
  {
  }

  /** Whatever the interleaving, every chunk is begun at most once, and in order. */
  lemma BegunOnce(chunks: nat, helpers: nat, run: seq<Action>, s: State)
    requires Reaches(Init(chunks, helpers), run, s)
    ensures forall i: nat, j: nat | i < j < |s.begun| :: s.begun[i] < s.begun[j] < s.chunks
  {
    InitInv(chunks, helpers);
    RunKeepsInv(Init(chunks, helpers), run, s);
  }

  lemma GoneMeansAlone(s: State)
    requires Inv(s) && At(s, 0, Gone)
    ensures forall i: nat | i < |s.pcs| :: s.pcs[i].Unborn? || s.pcs[i].Gone?
  {
    hide Roles, Chunks, Flags, LiveCount;
    forall i: nat | 0 < i < |s.pcs|
      ensures !LiveHelper(s.pcs[i])
    {
      if LiveHelper(s.pcs[i]) {
        LiveIsCounted(s.pcs, i, |s.pcs|);
      }
    }
  }

  lemma NothingEnabled(s: State, a: Action)
    requires forall i: nat | i < |s.pcs| :: s.pcs[i].Unborn? || s.pcs[i].Gone?
    requires At(s, 0, Gone)
    ensures !Enabled(s, a)
  {
  }

  /** When the caller returns, no helper is running a chunk or will ever run one. */
  lemma ReturnsAlone(chunks: nat, helpers: nat, run: seq<Action>, s: State)
    requires Reaches(Init(chunks, helpers), run, s) && At(s, 0, Gone)
    ensures forall i: nat | i < |s.pcs| :: s.pcs[i].Unborn? || s.pcs[i].Gone?
    ensures forall a: Action :: !Enabled(s, a)
  {
    hide Reaches, Inv, Enabled;
    InitInv(chunks, helpers);
    RunKeepsInv(Init(chunks, helpers), run, s);
    GoneMeansAlone(s);
    forall a: Action
      ensures !Enabled(s, a)
    {
      NothingEnabled(s, a);
    }
  }

  /**
    * A return without an error has run every chunk; an error is reported exactly if a chunk threw or the shared block
    * could not be allocated, in which case none was begun, and always if a chunk was skipped.
    */
  lemma ReturnIsComplete(chunks: nat, helpers: nat, run: seq<Action>, s: State)
    requires Reaches(Init(chunks, helpers), run, s) && At(s, 0, Gone)
    ensures !s.error ==> |s.begun| == s.chunks && forall c: nat | c < s.chunks :: c in s.finished
    ensures s.error <==> s.thrown != {} || s.unshared
    ensures s.unshared ==> s.begun == []
    ensures |s.begun| < s.chunks ==> s.error
  {
    InitInv(chunks, helpers);
    RunKeepsInv(Init(chunks, helpers), run, s);
    ReturnsAlone(chunks, helpers, run, s);
    assert forall i: nat | i < |s.pcs| :: !InChunk(s.pcs[i]);
    forall c: nat | c < |s.begun|
      ensures c in s.finished || c in s.thrown
    {
      assert !SomeoneIn(s, c);
    }
  }

  // ----- no run gets stuck, and every run ends -----

  /** The step a participant can take, if it can take one on its own. */
  function OwnStep(s: State, i: nat): Action
    requires i < |s.pcs|
  {
    match s.pcs[i]
    case Counted => Enqueue(true)
    case Queued => Begin(i)
    case Sharing => Share(true)
    case Spawning => if NextHelper(s) == |s.pcs| then StartOwn else if At(s, NextHelper(s), Unborn) then Count else Enqueue(true)
    case AtCheck => Check(i)
    case AtFetch => Fetch(i)
    case Running(_) => Finish(i)
    case Throwing(_) => Record(i)
    case Recorded => Fail(i)
    case Leaving => if i == 0 then Wait else Leave(i)
    case _ => Wait
  }

  /** A helper that is counted and not yet counted out can always move: no step waits for another participant. */
  lemma LiveHelperMoves(s: State, i: nat)
    requires Inv(s) && 0 < i < |s.pcs| && LiveHelper(s.pcs[i])
    ensures Enabled(s, OwnStep(s, i))
  {
    LiveIsCounted(s.pcs, i, |s.pcs|);
  }

  lemma {:induction false} SomeoneCounted(pcs: seq<Pc>, n: nat) returns (i: nat)
    requires n <= |pcs| && LiveCount(pcs, n) > 0
    ensures 0 < i < n && LiveHelper(pcs[i])
  {
    if LiveHelper(pcs[n - 1]) {
      i := n - 1;
    } else {
      i := SomeoneCounted(pcs, n - 1);
    }
  }

  /** Until the caller has returned, some step is possible; a sleeping caller always has a helper that will wake it. */
  lemma NeverStuck(s: State)
    requires Inv(s) && !At(s, 0, Gone)
    ensures exists a: Action :: Enabled(s, a)
  {
    if At(s, 0, Asleep) {
      var i := SomeoneCounted(s.pcs, |s.pcs|);
      LiveHelperMoves(s, i);
    } else {
      assert s.pcs[0].Spawning? && At(s, NextHelper(s), Counted) ==> s.running > 0 by {
        if At(s, NextHelper(s), Counted) {
          LiveIsCounted(s.pcs, NextHelper(s), |s.pcs|);
        }
      }
      assert Enabled(s, if s.pcs[0].Awake? then Wait else OwnStep(s, 0));
    }
  }

  /** How much a participant may still do before it takes another chunk. */
  function Weight(pc: Pc): nat {
    match pc
    case Unborn => 10
    case Sharing => 9
    case Counted => 9
    case Queued => 8
    case Spawning => 8
    case AtCheck => 7
    case AtFetch => 6
    case Running(_) => 15
    case Throwing(_) => 5
    case Recorded => 4
    case Leaving => 3
    case Awake => 2
    case Asleep => 1
    case Gone => 0
  }

  function Weights(pcs: seq<Pc>, n: nat): nat
    requires n <= |pcs|
  {
    if n == 0 then 0 else Weights(pcs, n - 1) + Weight(pcs[n - 1])
  }

  function Measure(s: State): nat {
    Weights(s.pcs, |s.pcs|) + 10 * (if s.next < s.chunks then s.chunks - s.next else 0)
  }

  lemma {:induction false} WeightsAfter(pcs: seq<Pc>, i: nat, pc: Pc, n: nat)
    requires i < |pcs| && n <= |pcs|
    ensures Weights(pcs[i := pc], n) == Weights(pcs, n) + if i < n then Weight(pc) - Weight(pcs[i]) else 0
  {
    if n > 0 {
      WeightsAfter(pcs, i, pc, n - 1);
    }
  }

  lemma MoveWeighs(s: State, i: nat, pc: Pc)
    requires i < |s.pcs|
    ensures Measure(Moved(s, i, pc)) == Measure(s) + Weight(pc) - Weight(s.pcs[i])
  {
    hide Weights;
    WeightsAfter(s.pcs, i, pc, |s.pcs|);
  }

  lemma SpawnDecreases(s: State, a: Action)
    requires Enabled(s, a) && (a.Count? || a.Enqueue?)
    ensures Measure(Do(s, a)) < Measure(s)
  {
    hide Weights;
    if a.Count? {
      MoveWeighs(s, NextHelper(s), Counted);
    } else if a.queued {
      MoveWeighs(s, NextHelper(s), Queued);
    } else {
      MoveWeighs(s, NextHelper(s), Gone);
      MoveWeighs(Moved(s, NextHelper(s), Gone), 0, AtCheck);
    }
  }

  lemma FetchDecreases(s: State, i: nat)
    requires Enabled(s, Fetch(i))
    ensures Measure(DoFetch(s, i)) < Measure(s)
  {
    hide Weights;
    MoveWeighs(s, i, if s.next >= s.chunks then Leaving else Running(s.next));
  }

  lemma LeaveDecreases(s: State, i: nat)
    requires Enabled(s, Leave(i))
    ensures Measure(DoLeave(s, i)) < Measure(s)
  {
    hide Weights;
    MoveWeighs(s, i, Gone);
    MoveWeighs(Moved(s, i, Gone), 0, Awake);
  }

  lemma ChunkDecreases(s: State, a: Action)
    requires Enabled(s, a) && ChunkStep(a)
    ensures Measure(Do(s, a)) < Measure(s)
  {
    hide Weights;
    match a
    case Begin(i) => MoveWeighs(s, i, AtCheck);
    case Check(i) => MoveWeighs(s, i, if s.failed then Leaving else AtFetch);
    case Fetch(i) => FetchDecreases(s, i);
    case Finish(i) => MoveWeighs(s, i, AtCheck);
    case Throw(i) => MoveWeighs(s, i, Throwing(s.pcs[i].chunk));
    case Record(i) => MoveWeighs(s, i, Recorded);
    case Fail(i) => MoveWeighs(s, i, Leaving);
    case _ =>
  }

  lemma CallerDecreases(s: State, a: Action)
    requires Enabled(s, a) && !ChunkStep(a)
    ensures Measure(Do(s, a)) < Measure(s)
  {
    hide Weights;
    match a
    case Share(granted) => MoveWeighs(s, 0, if granted then Spawning else Gone);
    case Count => SpawnDecreases(s, a);
    case Enqueue(_) => SpawnDecreases(s, a);
    case StartOwn => MoveWeighs(s, 0, AtCheck);
    case Leave(i) => LeaveDecreases(s, i);
    case Wait => MoveWeighs(s, 0, if s.running == 0 then Gone else Asleep);
    case _ =>
  }

  lemma StepDecreases(s: State, a: Action)
    requires Enabled(s, a)
    ensures Measure(Do(s, a)) < Measure(s)
  {
    hide Measure, Do, Enabled;
    if ChunkStep(a) {
      ChunkDecreases(s, a);
    } else {
      CallerDecreases(s, a);
    }
  }

  /** No run is longer than the measure of its start: `run_ranges` always returns once its bodies do. */
  lemma {:induction false} RunsEnd(start: State, run: seq<Action>, s: State)
    requires Inv(start) && Reaches(start, run, s)
    ensures |run| + Measure(s) <= Measure(start)
  {
    hide Inv, Steps, Measure;
    if run != [] {
      var before :| Reaches(start, run[1..], before) && Steps(before, run[0], s);
      RunKeepsInv(start, run[1..], before);
      RunsEnd(start, run[1..], before);
      OneStepDecreases(before, run[0], s);
    }
  }

  lemma OneStepDecreases(s: State, a: Action, t: State)
    requires Inv(s) && Steps(s, a, t)
    ensures Measure(t) < Measure(s)
  {
    hide Measure, Do;
    StepDecreases(s, a);
  }
}
