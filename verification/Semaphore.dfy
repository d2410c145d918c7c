/**
  The semaphores of thread_lock_impl.h over the sleep and wakeup of proc.c, as a
  state machine of any number of threads on any number of semaphores.  A mutex is
  taken by one atomic exchange; ptable.lock serialises going to sleep and waking.
  No thread is killed here; SemaphoreKills adds that.
*/
module Semaphore {
  import opened Options

  /** Where a thread is; k is the semaphore.  W* is sem_wait(), P* is sem_post(). */
  datatype Pc =
    | Idle
    | WLock(k: nat)      // thread_mutex_lock(), or mutex_lock() at the end of thread_sleep()
    | WTest(k: nat)      // while (sem->count == 0)
    | WCond(k: nat)      // acquire(&ptable.lock) in thread_sleep()
    | WRelease(k: nat)   // mutex_unlock(lk)
    | WSleep(k: nat)     // p->state = SLEEPING; sched()
    | Asleep(k: nat)
    | WDec(k: nat)       // sem->count--
    | WUnlock(k: nat)    // thread_mutex_unlock()
    | PLock(k: nat)      // thread_mutex_lock()
    | PInc(k: nat)       // sem->count++
    | PUnlock(k: nat)    // thread_mutex_unlock()
    | PSignal(k: nat)    // acquire(&ptable.lock) in wakeup()
    | PWake(k: nat)      // wakeup1(); release()

  /** posts and waits count the increments and decrements since sem_init(). */
  datatype Sem = Sem(count: int, mutex: Option<nat>, init: nat, posts: nat, waits: nat)

  datatype State = State(sems: seq<Sem>, ptable: Option<nat>, pc: map<nat, Pc>)

  predicate HoldsMutex(pc: Pc, k: nat) {
    pc == WTest(k) || pc == WCond(k) || pc == WRelease(k) ||
    pc == WDec(k) || pc == WUnlock(k) || pc == PInc(k) || pc == PUnlock(k)
  }

  predicate HoldsPtable(pc: Pc) {
    pc.WRelease? || pc.WSleep? || pc.PWake?
  }

  /** A poster that has raised the count and not yet called wakeup1(). */
  predicate Poster(pc: Pc, k: nat) {
    pc == PUnlock(k) || pc == PSignal(k) || pc == PWake(k)
  }

  /** wakeup1() */
  function Wake(pc: map<nat, Pc>, k: nat): map<nat, Pc> {
    map t | t in pc :: if pc[t] == Asleep(k) then WLock(k) else pc[t]
  }

  // ---------------------------------------------------------------- steps

  function Put(s: State, k: nat, m: Sem, t: nat, pc: Pc): State
    requires k < |s.sems|
  {
    s.(sems := s.sems[k := m], pc := s.pc[t := pc])
  }

  predicate At(s: State, t: nat, pc: Pc) {
    t in s.pc && s.pc[t] == pc
  }

  /** A thread starts sem_wait() or sem_post(). */
  predicate DoCall(s: State, t: nat, k: nat, post: bool, s': State) {
    At(s, t, Idle) && k < |s.sems| && s' == s.(pc := s.pc[t := if post then PLock(k) else WLock(k)])
  }

  predicate DoLock(s: State, t: nat, k: nat, s': State) {
    && (At(s, t, WLock(k)) || At(s, t, PLock(k))) && k < |s.sems| && s.sems[k].mutex.None?
    && s' == Put(s, k, s.sems[k].(mutex := Some(t)), t, if s.pc[t].WLock? then WTest(k) else PInc(k))
  }

  predicate DoTest(s: State, t: nat, k: nat, s': State) {
    && At(s, t, WTest(k)) && k < |s.sems|
    && s' == s.(pc := s.pc[t := if s.sems[k].count == 0 then WCond(k) else WDec(k)])
  }

  predicate DoDecrement(s: State, t: nat, k: nat, s': State) {
    && At(s, t, WDec(k)) && k < |s.sems|
    && s' == Put(s, k, s.sems[k].(count := s.sems[k].count - 1, waits := s.sems[k].waits + 1), t, WUnlock(k))
  }

  predicate DoIncrement(s: State, t: nat, k: nat, s': State) {
    && At(s, t, PInc(k)) && k < |s.sems|
    && s' == Put(s, k, s.sems[k].(count := s.sems[k].count + 1, posts := s.sems[k].posts + 1), t, PUnlock(k))
  }

  predicate DoUnlock(s: State, t: nat, k: nat, s': State) {
    && (At(s, t, WUnlock(k)) || At(s, t, PUnlock(k))) && k < |s.sems|
    && s' == Put(s, k, s.sems[k].(mutex := None), t, if s.pc[t].WUnlock? then Idle else PSignal(k))
  }

  /** acquire(&ptable.lock) */
  predicate DoPtable(s: State, t: nat, k: nat, s': State) {
    && (At(s, t, WCond(k)) || At(s, t, PSignal(k))) && s.ptable.None?
    && s' == s.(ptable := Some(t), pc := s.pc[t := if s.pc[t].WCond? then WRelease(k) else PWake(k)])
  }

  predicate DoRelease(s: State, t: nat, k: nat, s': State) {
    && At(s, t, WRelease(k)) && k < |s.sems|
    && s' == Put(s, k, s.sems[k].(mutex := None), t, WSleep(k))
  }

  /** The scheduler releases ptable.lock for the thread that went to sleep. */
  predicate DoSleep(s: State, t: nat, k: nat, s': State) {
    At(s, t, WSleep(k)) && s' == s.(ptable := None, pc := s.pc[t := Asleep(k)])
  }

  predicate DoWake(s: State, t: nat, k: nat, s': State) {
    At(s, t, PWake(k)) && s' == s.(ptable := None, pc := Wake(s.pc, k)[t := Idle])
  }

  datatype Kind = Call(post: bool) | Lock | Test | Decrement | Increment | Unlock | Ptable | Release | Sleep | WakeAll

  /** Thread t makes a step of the given kind on semaphore k. */
  predicate Next(s: State, t: nat, k: nat, kind: Kind, s': State) {
    match kind
    case Call(post) => DoCall(s, t, k, post, s')
    case Lock => DoLock(s, t, k, s')
    case Test => DoTest(s, t, k, s')
    case Decrement => DoDecrement(s, t, k, s')
    case Increment => DoIncrement(s, t, k, s')
    case Unlock => DoUnlock(s, t, k, s')
    case Ptable => DoPtable(s, t, k, s')
    case Release => DoRelease(s, t, k, s')
    case Sleep => DoSleep(s, t, k, s')
    case WakeAll => DoWake(s, t, k, s')
  }

  /** sem_init() for each semaphore, and no thread inside. */
  predicate Init(s: State) {
    && s.ptable.None? && (forall t :: t in s.pc ==> s.pc[t].Idle?)
    && (forall k :: 0 <= k < |s.sems| ==> s.sems[k] == Sem(s.sems[k].init, None, s.sems[k].init, 0, 0))
  }

  ghost predicate SomeNext(s: State, s': State) {
    s' == s || exists t, k, kind :: Next(s, t, k, kind, s')
  }

  ghost predicate IsRun(states: seq<State>) {
    0 < |states| && Init(states[0]) && forall i :: 0 <= i < |states| - 1 ==> SomeNext(states[i], states[i + 1])
  }

  // ---------------------------------------------------------------- invariants

  ghost predicate InRange(s: State) {
    forall t :: t in s.pc && !s.pc[t].Idle? ==> s.pc[t].k < |s.sems|
  }

  ghost predicate Mutexes(s: State) {
    forall t, k :: t in s.pc && 0 <= k < |s.sems| ==> (HoldsMutex(s.pc[t], k) <==> s.sems[k].mutex == Some(t))
  }

  ghost predicate Ptabled(s: State) {
    forall t :: t in s.pc ==> (HoldsPtable(s.pc[t]) <==> s.ptable == Some(t))
  }

  /** The locks are held by the threads whose code holds them. */
  ghost predicate Locks(s: State) {
    InRange(s) && Mutexes(s) && Ptabled(s)
  }

  ghost predicate CountOk(m: Sem) {
    0 <= m.count == m.init + m.posts - m.waits
  }

  /** What a thread that holds the mutex knows about the count. */
  ghost predicate Knows(s: State, pc: Pc) {
    !pc.Idle? && pc.k < |s.sems| ==>
      (pc.WDec? ==> 0 < s.sems[pc.k].count) && (pc.WCond? || pc.WRelease? ==> s.sems[pc.k].count == 0)
  }

  ghost predicate Counts(s: State) {
    && (forall k :: 0 <= k < |s.sems| ==> CountOk(s.sems[k]))
    && (forall t :: t in s.pc ==> Knows(s, s.pc[t]))
  }

  ghost predicate Pending(s: State, k: nat) {
    exists u :: u in s.pc && Poster(s.pc[u], k)
  }

  /** Who sleeps, or is about to, while the count is positive will be woken. */
  ghost predicate Sleepers(s: State) {
    forall t ::
      t in s.pc && (s.pc[t].WSleep? || s.pc[t].Asleep?) && s.pc[t].k < |s.sems| && 0 < s.sems[s.pc[t].k].count ==>
        Pending(s, s.pc[t].k)
  }

  ghost predicate Inv(s: State) {
    Locks(s) && Counts(s) && Sleepers(s)
  }

  lemma StepKeepsRange(s: State, t: nat, k: nat, kind: Kind, s': State)
    requires InRange(s) && Next(s, t, k, kind, s')
    ensures InRange(s')
  {
  }

  lemma StepKeepsMutexes(s: State, t: nat, k: nat, kind: Kind, s': State)
    requires InRange(s) && Mutexes(s) && Next(s, t, k, kind, s')
    ensures Mutexes(s')
  {
    assert |s'.sems| == |s.sems| && s'.pc.Keys == s.pc.Keys;
    forall x, j | x in s'.pc && 0 <= j < |s'.sems| ensures HoldsMutex(s'.pc[x], j) <==> s'.sems[j].mutex == Some(x) {
      assert HoldsMutex(s.pc[x], j) <==> s.sems[j].mutex == Some(x);
      assert HoldsMutex(s.pc[t], j) <==> s.sems[j].mutex == Some(t);
    }
  }

  lemma StepKeepsPtabled(s: State, t: nat, k: nat, kind: Kind, s': State)
    requires Ptabled(s) && Next(s, t, k, kind, s')
    ensures Ptabled(s')
  {
  }

  lemma StepKeepsCount(s: State, t: nat, k: nat, kind: Kind, s': State, j: nat)
    requires Counts(s) && Next(s, t, k, kind, s') && j < |s'.sems|
    ensures CountOk(s'.sems[j])
  {
    assert CountOk(s.sems[j]) && Knows(s, s.pc[t]);
  }

  lemma HolderKnows(s: State, t: nat, k: nat, kind: Kind, s': State, x: nat)
    requires Locks(s) && Counts(s) && Next(s, t, k, kind, s') && x in s'.pc
    ensures Knows(s', s'.pc[x])
  {
    assert x in s.pc && Knows(s, s.pc[x]);
    if k < |s.sems| {
      assert CountOk(s.sems[k]);
      assert HoldsMutex(s.pc[x], k) <==> s.sems[k].mutex == Some(x);
      assert HoldsMutex(s.pc[t], k) <==> s.sems[k].mutex == Some(t);
    }
  }

  lemma StepKeepsCounts(s: State, t: nat, k: nat, kind: Kind, s': State)
    requires Locks(s) && Counts(s) && Next(s, t, k, kind, s')
    ensures Counts(s')
  {
    forall j | 0 <= j < |s'.sems| ensures CountOk(s'.sems[j]) {
      StepKeepsCount(s, t, k, kind, s', j);
    }
    forall x | x in s'.pc ensures Knows(s', s'.pc[x]) {
      HolderKnows(s, t, k, kind, s', x);
    }
  }

  /** A poster other than t is still one after a step of t. */
  lemma PendingStays(s: State, t: nat, k: nat, kind: Kind, s': State, j: nat)
    requires Locks(s) && Next(s, t, k, kind, s') && Pending(s, j) && !(kind.WakeAll? && j == k)
    ensures Pending(s', j)
  {
    var u :| u in s.pc && Poster(s.pc[u], j);
    assert u in s'.pc && Poster(s'.pc[u], j);
  }

  lemma StepKeepsSleepers(s: State, t: nat, k: nat, kind: Kind, s': State)
    requires Inv(s) && Next(s, t, k, kind, s')
    ensures Sleepers(s')
  {
    forall x | x in s'.pc && (s'.pc[x].WSleep? || s'.pc[x].Asleep?) &&
        s'.pc[x].k < |s'.sems| && 0 < s'.sems[s'.pc[x].k].count
      ensures Pending(s', s'.pc[x].k)
    {
      var j := s'.pc[x].k;
      if kind.Increment? && j == k {
        assert Poster(s'.pc[t], j);
      } else {
        SleeperWas(s, t, k, kind, s', x);
        PendingStays(s, t, k, kind, s', j);
      }
    }
  }

  lemma SleeperWas(s: State, t: nat, k: nat, kind: Kind, s': State, x: nat)
    requires Inv(s) && Next(s, t, k, kind, s')
    requires x in s'.pc && (s'.pc[x].WSleep? || s'.pc[x].Asleep?) && s'.pc[x].k < |s'.sems|
    requires 0 < s'.sems[s'.pc[x].k].count
    requires !(kind.Increment? && s'.pc[x].k == k)
    ensures Pending(s, s'.pc[x].k) && !(kind.WakeAll? && s'.pc[x].k == k)
  {
    SleepyWas(s, t, k, kind, s', x);
    CountWas(s, t, k, kind, s', s'.pc[x].k);
  }

  /** Who sleeps, or is about to, did so before, or holds the mutex of an empty
      semaphore. */
  lemma SleepyWas(s: State, t: nat, k: nat, kind: Kind, s': State, x: nat)
    requires Inv(s) && Next(s, t, k, kind, s') && x in s'.pc && (s'.pc[x].WSleep? || s'.pc[x].Asleep?)
    ensures x in s.pc && !s.pc[x].Idle? && s.pc[x].k == s'.pc[x].k && !(kind.WakeAll? && s'.pc[x].k == k)
    ensures s.pc[x].WSleep? || s.pc[x].Asleep? || (s.pc[x].WRelease? && kind.Release?)
  {
  }

  lemma CountWas(s: State, t: nat, k: nat, kind: Kind, s': State, j: nat)
    requires Next(s, t, k, kind, s') && j < |s'.sems|
    ensures j < |s.sems| && (s'.sems[j].count <= s.sems[j].count || (kind.Increment? && j == k))
    ensures kind.Release? ==> s'.sems[j].count == s.sems[j].count
  {
  }

  lemma StepKeepsInv(s: State, t: nat, k: nat, kind: Kind, s': State)
    requires Inv(s) && Next(s, t, k, kind, s')
    ensures Inv(s')
  {
    StepKeepsRange(s, t, k, kind, s');
    StepKeepsMutexes(s, t, k, kind, s');
    StepKeepsPtabled(s, t, k, kind, s');
    StepKeepsCounts(s, t, k, kind, s');
    StepKeepsSleepers(s, t, k, kind, s');
  }

  lemma {:induction false} RunInv(states: seq<State>, i: nat)
    requires IsRun(states) && i < |states|
    ensures Inv(states[i])
  {
    if 0 < i {
      RunInv(states, i - 1);
      assert SomeNext(states[i - 1], states[i - 1 + 1]);
      if states[i] != states[i - 1] {
        var t, k, kind :| Next(states[i - 1], t, k, kind, states[i]);
        StepKeepsInv(states[i - 1], t, k, kind, states[i]);
      }
    }
  }

  // ---------------------------------------------------------------- what the semaphores promise

  /** In every run the count is the initial value plus the posts minus the waits
      that went through, and never negative. */
  lemma CountConserved(states: seq<State>, i: nat, k: nat)
    requires IsRun(states) && i < |states| && k < |states[i].sems|
    ensures var m := states[i].sems[k]; 0 <= m.count == m.init + m.posts - m.waits
  {
    RunInv(states, i);
    assert CountOk(states[i].sems[k]);
  }

  /** In every run two threads are never both between lock and unlock of one
      semaphore. */
  lemma MutualExclusion(states: seq<State>, i: nat, k: nat, t: nat, u: nat)
    requires IsRun(states) && i < |states| && k < |states[i].sems| && t in states[i].pc && u in states[i].pc
    requires HoldsMutex(states[i].pc[t], k) && HoldsMutex(states[i].pc[u], k)
    ensures t == u
  {
    RunInv(states, i);
  }

  /** In every run a thread that sleeps although the count is positive will be
      woken: some thread has raised the count and has yet to call wakeup.  So with
      no post under way a sleeping thread means a count of zero. */
  lemma NoLostWakeup(states: seq<State>, i: nat, t: nat)
    requires IsRun(states) && i < |states| && t in states[i].pc && states[i].pc[t].Asleep?
    ensures states[i].pc[t].k < |states[i].sems|
    ensures 0 < states[i].sems[states[i].pc[t].k].count ==>
      exists u :: u in states[i].pc && Poster(states[i].pc[u], states[i].pc[t].k)
    ensures (forall u :: u in states[i].pc ==>
              !states[i].pc[u].PUnlock? && !states[i].pc[u].PSignal? && !states[i].pc[u].PWake?) ==>
      states[i].sems[states[i].pc[t].k].count == 0
  {
    RunInv(states, i);
    assert CountOk(states[i].sems[states[i].pc[t].k]);
  }

  // ---------------------------------------------------------------- for clients

  predicate InWait(pc: Pc, k: nat) {
    && !pc.Idle? && pc.k == k && !pc.PLock? && !pc.PInc? && !pc.PUnlock? && !pc.PSignal? && !pc.PWake?
  }

  predicate InPost(pc: Pc, k: nat) {
    (pc.PLock? || pc.PInc? || pc.PUnlock? || pc.PSignal? || pc.PWake?) && pc.k == k
  }

  /** A step inside an operation leaves its thread in the operation or takes it
      out of it, and does no more to another thread than wake it. */
  lemma InsideStep(s: State, t: nat, k: nat, kind: Kind, s': State)
    requires Next(s, t, k, kind, s') && !kind.Call?
    ensures |s'.sems| == |s.sems| && s'.pc.Keys == s.pc.Keys && t in s.pc
    ensures InWait(s.pc[t], k) || InPost(s.pc[t], k)
    ensures InWait(s.pc[t], k) ==> InWait(s'.pc[t], k) || s'.pc[t].Idle?
    ensures InPost(s.pc[t], k) ==> InPost(s'.pc[t], k) || s'.pc[t].Idle?
    ensures forall x :: x in s.pc && x != t ==> s'.pc[x] == s.pc[x] || (s.pc[x].Asleep? && s'.pc[x] == WLock(s.pc[x].k))
  {
  }

  /** The steps that change a count, and the only way past them. */
  lemma CountStep(s: State, t: nat, k: nat, kind: Kind, s': State, j: nat)
    requires Next(s, t, k, kind, s') && !kind.Call? && j < |s.sems| && |s'.sems| == |s.sems|
    ensures s'.sems[j].count ==
      s.sems[j].count + (if j == k && kind.Increment? then 1 else 0) - (if j == k && kind.Decrement? then 1 else 0)
    ensures t in s.pc && t in s'.pc
    ensures kind.Decrement? ==> s.pc[t].WDec? && s'.pc[t].WUnlock?
    ensures kind.Increment? ==> s.pc[t].PInc? && s'.pc[t].PUnlock?
    ensures !kind.Decrement? && InWait(s.pc[t], k) ==> ((s'.pc[t].Idle? || s'.pc[t].WUnlock?) <==> s.pc[t].WUnlock?)
    ensures !kind.Increment? && InPost(s.pc[t], k) ==>
      ((s'.pc[t].PLock? || s'.pc[t].PInc?) <==> (s.pc[t].PLock? || s.pc[t].PInc?))
  {
  }
}
