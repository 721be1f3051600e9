/** Reader/writer lock with bounded waiting on both sides.

    Every operation runs under one mutex, so an operation up to its wait, and each re-evaluation
    of a wait condition after a wake-up, is one atomic step on the five counters. `Counters` and its
    functions are the specification of those steps, `FairSharedMutex` performs them in place, and
    `System` adds the threads: which of them wait asleep, wait awake, or hold the lock. */
module FairLock {

  datatype Counters = Counters(
    activeReaders: nat, waitingReaders: nat, waitingWriters: nat, readerQuota: nat, writerActive: bool)
  {
    predicate ReaderMayEnter() {
      !writerActive && (waitingWriters == 0 || readerQuota > 0)
    }

    predicate WriterMayEnter() {
      !writerActive && activeReaders == 0 && readerQuota == 0
    }

    function AdmitReader(): Counters
      requires waitingReaders > 0
    {
      this.(waitingReaders := waitingReaders - 1,
            readerQuota := if readerQuota > 0 then readerQuota - 1 else 0,
            activeReaders := activeReaders + 1)
    }

    function AdmitWriter(): Counters
      requires waitingWriters > 0
    {
      this.(waitingWriters := waitingWriters - 1, writerActive := true)
    }

    function ReleaseReader(): Counters
      requires activeReaders > 0
    {
      this.(activeReaders := activeReaders - 1)
    }

    /** The readers waiting now are admitted before any further writer. */
    function ReleaseWriter(): Counters {
      this.(writerActive := false, readerQuota := waitingReaders)
    }

    function WakeAfterReader(): Wake {
      if activeReaders == 0 && waitingWriters > 0 then OneWriter else Nobody
    }

    function WakeAfterWriter(): Wake {
      if waitingReaders > 0 then AllReaders else if waitingWriters > 0 then OneWriter else Nobody
    }
  }

  const Unlocked := Counters(0, 0, 0, 0, false)

  /** Whom a release notifies: one writer, all readers, or nobody. */
  datatype Wake = Nobody | OneWriter | AllReaders

  class FairSharedMutex {
    var activeReaders: nat
    var waitingReaders: nat
    var waitingWriters: nat
    var readerQuota: nat
    var writerActive: bool

    function View(): Counters
      reads this
    {
      Counters(activeReaders, waitingReaders, waitingWriters, readerQuota, writerActive)
    }

    constructor ()
      ensures View() == Unlocked
    {
      activeReaders, waitingReaders, waitingWriters, readerQuota := 0, 0, 0, 0;
      writerActive := false;
    }

    /** `lock_shared` up to its first wait: admitted at once, or left waiting. */
    method ArriveShared() returns (admitted: bool)
      modifies this
      ensures var c := old(View()).(waitingReaders := old(waitingReaders) + 1);
        admitted == c.ReaderMayEnter() && View() == if admitted then c.AdmitReader() else c
    {
      waitingReaders := waitingReaders + 1;
      admitted := RetryShared();
    }

    /** The wait condition of `lock_shared`, evaluated with the mutex held, and what follows it. */
    method RetryShared() returns (admitted: bool)
      requires waitingReaders > 0
      modifies this
      ensures admitted == old(View()).ReaderMayEnter()
      ensures View() == if admitted then old(View()).AdmitReader() else old(View())
    {
      admitted := !writerActive && (waitingWriters == 0 || readerQuota > 0);
      if admitted {
        waitingReaders := waitingReaders - 1;
        if readerQuota > 0 {
          readerQuota := readerQuota - 1;
        }
        activeReaders := activeReaders + 1;
      }
    }

    method UnlockShared() returns (wake: Wake)
      requires activeReaders > 0
      modifies this
      ensures View() == old(View()).ReleaseReader() && wake == View().WakeAfterReader()
    {
      activeReaders := activeReaders - 1;
      wake := Nobody;
      if activeReaders == 0 && waitingWriters > 0 {
        wake := OneWriter;
      }
    }

    method Arrive() returns (admitted: bool)
      modifies this
      ensures var c := old(View()).(waitingWriters := old(waitingWriters) + 1);
        admitted == c.WriterMayEnter() && View() == if admitted then c.AdmitWriter() else c
    {
      waitingWriters := waitingWriters + 1;
      admitted := Retry();
    }

    method Retry() returns (admitted: bool)
      requires waitingWriters > 0
      modifies this
      ensures admitted == old(View()).WriterMayEnter()
      ensures View() == if admitted then old(View()).AdmitWriter() else old(View())
    {
      admitted := !writerActive && activeReaders == 0 && readerQuota == 0;
      if admitted {
        waitingWriters := waitingWriters - 1;
        writerActive := true;
      }
    }

    method Unlock() returns (wake: Wake)
      requires writerActive
      modifies this
      ensures View() == old(View()).ReleaseWriter() && wake == View().WakeAfterWriter()
    {
      writerActive := false;
      readerQuota := waitingReaders;
      wake := Nobody;
      if waitingReaders > 0 {
        wake := AllReaders;
      } else if waitingWriters > 0 {
        wake := OneWriter;
      }
    }
  }

  // ---------------------------------------------------------------------------------------------
  // Threads
  // ---------------------------------------------------------------------------------------------

  /** Outside, waiting on the condition variable, woken and contending for the mutex, or holding. */
  datatype Role = Outside | ReaderAsleep | ReaderAwake | Reading | WriterAsleep | WriterAwake | Writing

  datatype System = System(c: Counters, roles: seq<Role>)

  /** `w` is the waiter that a single notification happens to wake, if there is one. */
  datatype Action =
    | LockShared(t: nat)
    | RetryShared(t: nat)
    | UnlockShared(t: nat, w: nat)
    | Lock(t: nat)
    | Retry(t: nat)
    | Unlock(t: nat, w: nat)
    | SpuriousWake(t: nat)
    | Spawn

  function Count(roles: seq<Role>, role: Role): nat {
    if roles == [] then 0
    else (if roles[0] == role then 1 else 0) + Count(roles[1..], role)
  }

  /** `notify_all` on the readers' condition variable. */
  function WakeReaders(roles: seq<Role>): (r: seq<Role>)
    ensures |r| == |roles|
    ensures forall i :: 0 <= i < |r| ==>
      r[i] == if roles[i] == ReaderAsleep then ReaderAwake else roles[i]
  {
    if roles == [] then []
    else [if roles[0] == ReaderAsleep then ReaderAwake else roles[0]] + WakeReaders(roles[1..])
  }

  /** `notify_one` on the writers' condition variable: wakes sleeper `w`; no effect without sleepers. */
  function WakeWriter(roles: seq<Role>, w: nat): seq<Role> {
    if w < |roles| && roles[w] == WriterAsleep then roles[w := WriterAwake] else roles
  }

  predicate WakesSomeWriter(roles: seq<Role>, w: nat) {
    Count(roles, WriterAsleep) > 0 ==> w < |roles| && roles[w] == WriterAsleep
  }

  function Notify(roles: seq<Role>, wake: Wake, w: nat): seq<Role> {
    match wake
    case Nobody => roles
    case OneWriter => WakeWriter(roles, w)
    case AllReaders => WakeReaders(roles)
  }

  predicate Enabled(s: System, a: Action) {
    match a
    case LockShared(t) => t < |s.roles| && s.roles[t] == Outside
    case RetryShared(t) => t < |s.roles| && s.roles[t] == ReaderAwake && s.c.waitingReaders > 0
    case UnlockShared(t, w) =>
      && t < |s.roles| && s.roles[t] == Reading && s.c.activeReaders > 0
      && WakesSomeWriter(s.roles[t := Outside], w)
    case Lock(t) => t < |s.roles| && s.roles[t] == Outside
    case Retry(t) => t < |s.roles| && s.roles[t] == WriterAwake && s.c.waitingWriters > 0
    case Unlock(t, w) =>
      && t < |s.roles| && s.roles[t] == Writing && s.c.writerActive
      && WakesSomeWriter(s.roles[t := Outside], w)
    case SpuriousWake(t) => t < |s.roles| && (s.roles[t] == ReaderAsleep || s.roles[t] == WriterAsleep)
    case Spawn => true
  }

  function ReaderTries(c: Counters, roles: seq<Role>, t: nat): System
    requires t < |roles| && c.waitingReaders > 0
  {
    if c.ReaderMayEnter() then System(c.AdmitReader(), roles[t := Reading])
    else System(c, roles[t := ReaderAsleep])
  }

  function WriterTries(c: Counters, roles: seq<Role>, t: nat): System
    requires t < |roles| && c.waitingWriters > 0
  {
    if c.WriterMayEnter() then System(c.AdmitWriter(), roles[t := Writing])
    else System(c, roles[t := WriterAsleep])
  }

  function Apply(s: System, a: Action): System
    requires Enabled(s, a)
  {
    match a
    case LockShared(t) => ReaderTries(s.c.(waitingReaders := s.c.waitingReaders + 1), s.roles, t)
    case RetryShared(t) => ReaderTries(s.c, s.roles, t)
    case UnlockShared(t, w) =>
      var c := s.c.ReleaseReader();
      System(c, Notify(s.roles[t := Outside], c.WakeAfterReader(), w))
    case Lock(t) => WriterTries(s.c.(waitingWriters := s.c.waitingWriters + 1), s.roles, t)
    case Retry(t) => WriterTries(s.c, s.roles, t)
    case Unlock(t, w) =>
      var c := s.c.ReleaseWriter();
      System(c, Notify(s.roles[t := Outside], c.WakeAfterWriter(), w))
    case SpuriousWake(t) =>
      s.(roles := s.roles[t := if s.roles[t] == ReaderAsleep then ReaderAwake else WriterAwake])
    case Spawn => s.(roles := s.roles + [Outside])
  }

  // ---------------------------------------------------------------------------------------------
  // Counting threads
  // ---------------------------------------------------------------------------------------------

  lemma {:induction false} CountUpdate(roles: seq<Role>, t: nat, to: Role, role: Role)
    requires t < |roles|
    ensures Count(roles[t := to], role) ==
      Count(roles, role) - (if roles[t] == role then 1 else 0) + (if to == role then 1 else 0)
    ensures roles[t] == role ==> Count(roles, role) > 0
  {
    if t > 0 {
      CountUpdate(roles[1..], t - 1, to, role);
      assert roles[t := to][1..] == roles[1..][t - 1 := to];
    }
  }

  lemma {:induction false} CountAppend(roles: seq<Role>, role: Role)
    ensures Count(roles + [Outside], role) == Count(roles, role) + (if role == Outside then 1 else 0)
  {
    if roles != [] {
      CountAppend(roles[1..], role);
      assert (roles + [Outside])[1..] == roles[1..] + [Outside];
    }
  }

  lemma {:induction false} CountWake(roles: seq<Role>, role: Role)
    ensures Count(WakeReaders(roles), role) ==
      if role == ReaderAsleep then 0
      else if role == ReaderAwake then Count(roles, ReaderAwake) + Count(roles, ReaderAsleep)
      else Count(roles, role)
  {
    if roles != [] { CountWake(roles[1..], role); }
  }

  lemma {:induction false} CountPositive(roles: seq<Role>, role: Role) returns (t: nat)
    requires Count(roles, role) > 0
    ensures t < |roles| && roles[t] == role
  {
    if roles[0] == role { t := 0; } else { t := CountPositive(roles[1..], role); t := t + 1; }
  }

  lemma {:induction false} CountTwo(roles: seq<Role>, t: nat, u: nat, role: Role)
    requires t < u < |roles| && roles[t] == role && roles[u] == role
    ensures Count(roles, role) >= 2
  {
    CountUpdate(roles, t, if role == Outside then Reading else Outside, role);
    CountUpdate(roles[t := if role == Outside then Reading else Outside], u,
                if role == Outside then Reading else Outside, role);
  }

  // ---------------------------------------------------------------------------------------------
  // The invariant
  // ---------------------------------------------------------------------------------------------

  /** The counters count the threads, and nobody who could enter is left to sleep. */
  predicate Inv(s: System) {
    var c := s.c;
    && c.activeReaders == Count(s.roles, Reading)
    && c.waitingReaders == Count(s.roles, ReaderAsleep) + Count(s.roles, ReaderAwake)
    && c.waitingWriters == Count(s.roles, WriterAsleep) + Count(s.roles, WriterAwake)
    && Count(s.roles, Writing) == (if c.writerActive then 1 else 0)
    && (c.writerActive ==> c.activeReaders == 0 && c.readerQuota == 0)
    && c.readerQuota <= c.waitingReaders
    && (c.ReaderMayEnter() ==> Count(s.roles, ReaderAsleep) == 0)
    && (c.WriterMayEnter() && c.waitingWriters > 0 ==> Count(s.roles, WriterAwake) > 0)
  }

  lemma CountMove(roles: seq<Role>, t: nat, to: Role)
    requires t < |roles|
    ensures forall role :: Count(roles[t := to], role) ==
              (Count(roles, role) - (if roles[t] == role then 1 else 0) + (if to == role then 1 else 0))
    ensures Count(roles, roles[t]) > 0
  {
    forall role
      ensures Count(roles[t := to], role) ==
                (Count(roles, role) - (if roles[t] == role then 1 else 0) + (if to == role then 1 else 0))
    {
      CountUpdate(roles, t, to, role);
    }
    CountUpdate(roles, t, to, roles[t]);
  }

  lemma NotifyCounts(roles: seq<Role>, wake: Wake, w: nat)
    requires WakesSomeWriter(roles, w)
    ensures var r := Notify(roles, wake, w);
      && Count(r, Reading) == Count(roles, Reading) && Count(r, Writing) == Count(roles, Writing)
      && Count(r, ReaderAsleep) + Count(r, ReaderAwake) ==
           Count(roles, ReaderAsleep) + Count(roles, ReaderAwake)
      && Count(r, WriterAsleep) + Count(r, WriterAwake) ==
           Count(roles, WriterAsleep) + Count(roles, WriterAwake)
      && Count(r, ReaderAsleep) == (if wake.AllReaders? then 0 else Count(roles, ReaderAsleep))
      && Count(r, WriterAwake) >= Count(roles, WriterAwake)
      && (wake.OneWriter? && Count(roles, WriterAsleep) > 0 ==> Count(r, WriterAwake) > 0)
  {
    if wake.OneWriter? && w < |roles| && roles[w] == WriterAsleep {
      CountMove(roles, w, WriterAwake);
    }
    if wake.AllReaders? {
      CountWake(roles, Reading);
      CountWake(roles, Writing);
      CountWake(roles, ReaderAsleep);
      CountWake(roles, ReaderAwake);
      CountWake(roles, WriterAsleep);
      CountWake(roles, WriterAwake);
    }
  }

  lemma TryKeepsInv(s: System, a: Action)
    requires Inv(s) && Enabled(s, a)
    requires a.LockShared? || a.RetryShared? || a.Lock? || a.Retry? || a.SpuriousWake?
    ensures Inv(Apply(s, a))
  {
    CountMove(s.roles, a.t, Apply(s, a).roles[a.t]);
  }

  lemma ReleaseKeepsInv(s: System, a: Action)
    requires Inv(s) && Enabled(s, a) && (a.UnlockShared? || a.Unlock?)
    ensures Inv(Apply(s, a))
  {
    var c := Apply(s, a).c;
    CountMove(s.roles, a.t, Outside);
    NotifyCounts(s.roles[a.t := Outside], if a.Unlock? then c.WakeAfterWriter() else c.WakeAfterReader(), a.w);
  }

  lemma StepKeepsInv(s: System, a: Action)
    requires Inv(s) && Enabled(s, a)
    ensures Inv(Apply(s, a))
  {
    if a.UnlockShared? || a.Unlock? {
      ReleaseKeepsInv(s, a);
    } else if a.Spawn? {
      forall role
        ensures Count(s.roles + [Outside], role) == Count(s.roles, role) + (if role == Outside then 1 else 0)
      {
        CountAppend(s.roles, role);
      }
    } else {
      TryKeepsInv(s, a);
    }
  }

  ghost predicate Step(s: System, a: Action, s': System) {
    Enabled(s, a) && s' == Apply(s, a)
  }

  /** `states` is the run of `acts` from its first state. */
  ghost predicate Run(states: seq<System>, acts: seq<Action>) {
    && |states| == |acts| + 1
    && forall i :: 0 <= i < |acts| ==> Step(states[i], acts[i], states[i + 1])
  }

  ghost predicate Reachable(s: System) {
    exists states, acts :: Run(states, acts) && states[0] == System(Unlocked, []) && states[|acts|] == s
  }

  lemma {:induction false} RunKeepsInv(states: seq<System>, acts: seq<Action>, i: nat)
    requires Run(states, acts) && Inv(states[0]) && i < |states|
    ensures Inv(states[i])
  {
    if i > 0 {
      RunKeepsInv(states, acts, i - 1);
      assert Step(states[i - 1], acts[i - 1], states[i]);
      StepKeepsInv(states[i - 1], acts[i - 1]);
    }
  }

  lemma ReachableInv(s: System)
    requires Reachable(s)
    ensures Inv(s)
  {
    var states, acts :| Run(states, acts) && states[0] == System(Unlocked, []) && states[|acts|] == s;
    RunKeepsInv(states, acts, |acts|);
  }

  // ---------------------------------------------------------------------------------------------
  // Safety and progress
  // ---------------------------------------------------------------------------------------------

  /** A writer is alone. */
  lemma WriterIsAlone(s: System, t: nat, u: nat)
    requires Reachable(s) && t < |s.roles| && u < |s.roles| && t != u && s.roles[t] == Writing
    ensures s.roles[u] != Writing && s.roles[u] != Reading
    ensures s.c.writerActive && s.c.readerQuota == 0
  {
    ReachableInv(s);
    CountUpdate(s.roles, t, Outside, Writing);
    if s.roles[u] == Writing {
      if t < u { CountTwo(s.roles, t, u, Writing); } else { CountTwo(s.roles, u, t, Writing); }
    }
    if s.roles[u] == Reading { CountUpdate(s.roles, u, Outside, Reading); }
  }

  /** No wake-up is lost: while the wait condition of readers holds, no reader sleeps on it; while
      that of writers holds and a writer waits, one is awake. The quota is covered by waiters. */
  lemma NoLostWakeup(s: System, t: nat)
    requires Reachable(s) && t < |s.roles|
    ensures s.roles[t] == ReaderAsleep ==> !s.c.ReaderMayEnter()
    ensures s.roles[t] == WriterAsleep && s.c.WriterMayEnter() ==>
      exists u :: 0 <= u < |s.roles| && s.roles[u] == WriterAwake
    ensures s.c.readerQuota <= s.c.waitingReaders
  {
    ReachableInv(s);
    CountUpdate(s.roles, t, Outside, s.roles[t]);
    if s.roles[t] == WriterAsleep && s.c.WriterMayEnter() {
      var u := CountPositive(s.roles, WriterAwake);
    }
  }

  /** The thread will release the lock, or its next attempt is admitted. */
  predicate CanProceed(s: System, t: nat)
    requires t < |s.roles|
  {
    || s.roles[t] == Reading || s.roles[t] == Writing
    || (s.roles[t] == ReaderAwake && s.c.ReaderMayEnter())
    || (s.roles[t] == WriterAwake && s.c.WriterMayEnter())
  }

  /** No reachable state with a waiting thread is stuck. */
  lemma NeverStuck(s: System, t: nat)
    requires Reachable(s) && t < |s.roles| && s.roles[t] != Outside
    ensures exists u :: 0 <= u < |s.roles| && CanProceed(s, u)
  {
    ReachableInv(s);
    CountUpdate(s.roles, t, Outside, s.roles[t]);
    if s.c.writerActive {
      var u := CountPositive(s.roles, Writing);
      assert CanProceed(s, u);
    } else if s.c.activeReaders > 0 {
      var u := CountPositive(s.roles, Reading);
      assert CanProceed(s, u);
    } else if s.c.WriterMayEnter() && s.c.waitingWriters > 0 {
      var u := CountPositive(s.roles, WriterAwake);
      assert CanProceed(s, u);
    } else {
      var u := CountPositive(s.roles, ReaderAwake);
      assert CanProceed(s, u);
    }
  }

  // ---------------------------------------------------------------------------------------------
  // Bounded bypass
  // ---------------------------------------------------------------------------------------------

  predicate AdmitsReader(s: System, s': System) {
    s'.c.activeReaders > s.c.activeReaders
  }

  predicate AdmitsWriter(s: System, s': System) {
    !s.c.writerActive && s'.c.writerActive
  }

  function ReaderAdmissions(states: seq<System>): nat {
    if |states| < 2 then 0
    else (if AdmitsReader(states[0], states[1]) then 1 else 0) + ReaderAdmissions(states[1..])
  }

  function WriterAdmissions(states: seq<System>): nat {
    if |states| < 2 then 0
    else (if AdmitsWriter(states[0], states[1]) then 1 else 0) + WriterAdmissions(states[1..])
  }

  lemma RunTail(states: seq<System>, acts: seq<Action>)
    requires Run(states, acts) && |acts| > 0
    ensures Run(states[1..], acts[1..]) && Step(states[0], acts[0], states[1])
  {
    forall i | 0 <= i < |acts[1..]| ensures Step(states[1..][i], acts[1..][i], states[1..][i + 1]) {
      assert Step(states[i + 1], acts[i + 1], states[i + 2]);
    }
  }

  /** While no writer is inside, each reader admission uses up at most one unit of the quota, and
      exactly one if a writer waits. */
  lemma {:induction false} QuotaSpent(states: seq<System>, acts: seq<Action>)
    requires Run(states, acts) && Inv(states[0])
    requires forall i :: 0 <= i < |states| ==> !states[i].c.writerActive
    ensures states[0].c.readerQuota <= states[|acts|].c.readerQuota + ReaderAdmissions(states)
    ensures (forall i :: 0 <= i < |acts| ==> states[i].c.waitingWriters > 0) ==>
      states[0].c.readerQuota == states[|acts|].c.readerQuota + ReaderAdmissions(states)
  {
    if acts != [] {
      RunTail(states, acts);
      StepKeepsInv(states[0], acts[0]);
      QuotaSpent(states[1..], acts[1..]);
    }
  }

  /** A writer unlocks with `r` readers waiting: before the next writer enters, at least `r` readers
      are admitted, and exactly `r` if some writer waits throughout. */
  lemma ReadersBeforeNextWriter(states: seq<System>, acts: seq<Action>, r: nat)
    requires Run(states, acts) && |acts| >= 2 && Inv(states[0])
    requires acts[0].Unlock? && states[0].c.waitingReaders == r
    requires forall i :: 1 <= i < |acts| ==> !states[i].c.writerActive
    requires AdmitsWriter(states[|acts| - 1], states[|acts|])
    ensures ReaderAdmissions(states[1..|acts|]) >= r
    ensures (forall i :: 1 <= i < |acts| ==> states[i].c.waitingWriters > 0) ==>
      ReaderAdmissions(states[1..|acts|]) == r
  {
    var n := |acts| - 1;
    var mid, midActs := states[1..n + 1], acts[1..n];
    assert Step(states[0], acts[0], states[1]) && Step(states[n], acts[n], states[n + 1]);
    StepKeepsInv(states[0], acts[0]);
    forall i | 0 <= i < |midActs| ensures Step(mid[i], midActs[i], mid[i + 1]) {
      assert Step(states[i + 1], acts[i + 1], states[i + 2]);
    }
    QuotaSpent(mid, midActs);
    RunKeepsInv(states, acts, n);
  }

  /** While a reader waits and none is admitted, at most one writer enters, and none if a writer
      has just left. */
  lemma {:induction false} OneWriterPerWaitingReader(states: seq<System>, acts: seq<Action>)
    requires Run(states, acts) && Inv(states[0])
    requires forall i :: 0 <= i < |states| ==> states[i].c.waitingReaders > 0
    requires ReaderAdmissions(states) == 0
    ensures WriterAdmissions(states) <=
      if states[0].c.readerQuota > 0 || states[0].c.writerActive then 0 else 1
  {
    if acts != [] {
      RunTail(states, acts);
      StepKeepsInv(states[0], acts[0]);
      OneWriterPerWaitingReader(states[1..], acts[1..]);
    }
  }

  /** While a writer waits and none enters, readers enter only within the quota. */
  lemma ReadersPastWaitingWriter(states: seq<System>, acts: seq<Action>)
    requires Run(states, acts) && Inv(states[0])
    requires forall i :: 0 <= i < |states| ==> states[i].c.waitingWriters > 0 && !states[i].c.writerActive
    ensures ReaderAdmissions(states) <= states[0].c.readerQuota
  {
    QuotaSpent(states, acts);
  }
}
