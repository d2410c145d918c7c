/**
  The semaphores with threads that are killed.  kill() makes a sleeping thread
  runnable, which for thread_sleep() is a wakeup.  A thread that was killed dies
  where it is in user mode, and whatever it was about to do is not done: it keeps a
  mutex that it holds, and it does not call thread_cond_signal().
*/
module SemaphoreKills {
  import opened Options
  import opened Semaphore

  /** The dead threads stay where they died. */
  datatype Killing = Killing(s: State, dead: set<nat>)

  datatype Step =
    | Go(t: nat, k: nat, kind: Kind)
    | Kick(t: nat, k: nat)          // kill() of a thread that sleeps on k
    | Die(t: nat)

  /** The thread does not sleep and does not hold ptable.lock, so it may be in user
      mode. */
  predicate MayDie(pc: Pc) {
    !HoldsPtable(pc) && !pc.Asleep?
  }

  predicate Takes(z: Killing, st: Step, z': Killing) {
    match st
    case Go(t, k, kind) => t !in z.dead && Next(z.s, t, k, kind, z'.s) && z'.dead == z.dead
    case Kick(t, k) =>
      At(z.s, t, Asleep(k)) && z.s.ptable.None? && z' == z.(s := z.s.(pc := z.s.pc[t := WLock(k)]))
    case Die(t) =>
      t in z.s.pc && t !in z.dead && MayDie(z.s.pc[t]) && z' == z.(dead := z.dead + {t})
  }

  ghost predicate IsRun(states: seq<Killing>, steps: seq<Step>) {
    && |states| == |steps| + 1 && Semaphore.Init(states[0].s) && states[0].dead == {}
    && forall i :: 0 <= i < |steps| ==> Takes(states[i], steps[i], states[i + 1])
  }

  // ---------------------------------------------------------------- what kills leave intact

  ghost predicate Alive(z: Killing) {
    && Locks(z.s) && Counts(z.s)
    && (forall t :: t in z.dead ==> t in z.s.pc && MayDie(z.s.pc[t]))
  }

  lemma KickKeeps(z: Killing, t: nat, k: nat, z': Killing)
    requires Alive(z) && Takes(z, Kick(t, k), z')
    ensures Alive(z')
  {
    KickKeepsLocks(z.s, t, k, z'.s);
    forall x | x in z'.s.pc ensures Knows(z'.s, z'.s.pc[x]) {
      assert Knows(z.s, z.s.pc[x]);
    }
  }

  lemma KickKeepsLocks(s: State, t: nat, k: nat, s': State)
    requires Locks(s) && At(s, t, Asleep(k)) && s' == s.(pc := s.pc[t := WLock(k)])
    ensures Locks(s')
  {
    forall x, j | x in s'.pc && 0 <= j < |s'.sems| ensures HoldsMutex(s'.pc[x], j) <==> s'.sems[j].mutex == Some(x) {
      assert HoldsMutex(s.pc[x], j) <==> s.sems[j].mutex == Some(x);
    }
  }

  lemma GoKeeps(z: Killing, t: nat, k: nat, kind: Kind, z': Killing)
    requires Alive(z) && Takes(z, Go(t, k, kind), z')
    ensures Alive(z')
  {
    StepKeepsRange(z.s, t, k, kind, z'.s);
    StepKeepsMutexes(z.s, t, k, kind, z'.s);
    StepKeepsPtabled(z.s, t, k, kind, z'.s);
    StepKeepsCounts(z.s, t, k, kind, z'.s);
  }

  lemma StepKeepsAlive(z: Killing, st: Step, z': Killing)
    requires Alive(z) && Takes(z, st, z')
    ensures Alive(z')
  {
    match st
    case Go(t, k, kind) => GoKeeps(z, t, k, kind, z');
    case Kick(t, k) => KickKeeps(z, t, k, z');
    case Die(t) =>
  }

  /** Mutual exclusion and the count survive every kill. */
  lemma {:induction false} RunAlive(states: seq<Killing>, steps: seq<Step>, i: nat)
    requires IsRun(states, steps) && i < |states|
    ensures Alive(states[i])
  {
    if 0 < i {
      RunAlive(states, steps, i - 1);
      StepKeepsAlive(states[i - 1], steps[i - 1], states[i]);
    }
  }

  // ---------------------------------------------------------------- wakeups

  ghost predicate Sleepy(s: State, t: nat, k: nat) {
    At(s, t, WSleep(k)) || At(s, t, Asleep(k))
  }

  ghost predicate Sleeper(s: State, k: nat) {
    exists t :: Sleepy(s, t, k)
  }

  ghost predicate Waker(z: Killing, u: nat, k: nat) {
    u in z.s.pc && u !in z.dead && Poster(z.s.pc[u], k)
  }

  /** Whoever sleeps while the count is positive will be woken by a live thread. */
  ghost predicate Woken(z: Killing, k: nat)
    requires k < |z.s.sems|
  {
    Sleeper(z.s, k) && 0 < z.s.sems[k].count ==> exists u :: Waker(z, u, k)
  }

  ghost predicate AllWoken(z: Killing) {
    forall k :: 0 <= k < |z.s.sems| ==> Woken(z, k)
  }

  /** The thread has raised the count and dies before its signal, somebody sleeps, the
      count is still positive, and no other thread is about to signal. */
  ghost predicate Losing(z: Killing, st: Step) {
    && st.Die? && st.t in z.s.pc && !z.s.pc[st.t].Idle?
    && var k := z.s.pc[st.t].k;
    && k < |z.s.sems| && Waker(z, st.t, k) && Sleeper(z.s, k) && 0 < z.s.sems[k].count
    && forall u :: Waker(z, u, k) ==> u == st.t
  }

  lemma GoWakes(z: Killing, t: nat, k: nat, kind: Kind, z': Killing, j: nat)
    requires Alive(z) && AllWoken(z) && Takes(z, Go(t, k, kind), z') && j < |z'.s.sems|
    ensures Woken(z', j)
  {
    if Sleeper(z'.s, j) && 0 < z'.s.sems[j].count {
      var x :| Sleepy(z'.s, x, j);
      if kind.Increment? && j == k {
        assert Waker(z', t, j);
      } else {
        WasSleepy(z, t, k, kind, z', x, j);
        var u :| Waker(z, u, j);
        assert Waker(z', u, j);
      }
    }
  }

  lemma AllPending(z: Killing)
    requires Alive(z) && AllWoken(z)
    ensures Inv(z.s)
  {
    forall t | t in z.s.pc && (z.s.pc[t].WSleep? || z.s.pc[t].Asleep?) && 0 < z.s.sems[z.s.pc[t].k].count
      ensures Pending(z.s, z.s.pc[t].k)
    {
      var k := z.s.pc[t].k;
      assert Sleepy(z.s, t, k);
      assert Woken(z, k);
      var u :| Waker(z, u, k);
    }
  }

  lemma WasSleepy(z: Killing, t: nat, k: nat, kind: Kind, z': Killing, x: nat, j: nat)
    requires Alive(z) && AllWoken(z) && Takes(z, Go(t, k, kind), z') && Sleepy(z'.s, x, j)
    requires j < |z'.s.sems| && 0 < z'.s.sems[j].count && !(kind.Increment? && j == k)
    ensures !(kind.WakeAll? && j == k) && exists u :: Waker(z, u, j)
  {
    AllPending(z);
    SleepyWas(z.s, t, k, kind, z'.s, x);
    CountWas(z.s, t, k, kind, z'.s, j);
    assert Knows(z.s, z.s.pc[x]);
    assert Sleepy(z.s, x, j);
    assert Woken(z, j);
  }

  lemma KickWakes(z: Killing, t: nat, k: nat, z': Killing, j: nat)
    requires Alive(z) && AllWoken(z) && Takes(z, Kick(t, k), z') && j < |z'.s.sems|
    ensures Woken(z', j)
  {
    assert Woken(z, j);
    if Sleeper(z'.s, j) && 0 < z'.s.sems[j].count {
      var x :| Sleepy(z'.s, x, j);
      assert Sleepy(z.s, x, j);
      var u :| Waker(z, u, j);
      assert Waker(z', u, j);
    }
  }

  lemma DieWakes(z: Killing, t: nat, z': Killing, j: nat)
    requires AllWoken(z) && Takes(z, Die(t), z') && j < |z'.s.sems| && !Losing(z, Die(t))
    ensures Woken(z', j)
  {
    assert Woken(z, j);
    if Sleeper(z'.s, j) && 0 < z'.s.sems[j].count {
      var u :| Waker(z, u, j);
      if u != t {
        assert Waker(z', u, j);
      } else {
        var v :| Waker(z, v, j) && v != t;
        assert Waker(z', v, j);
      }
    }
  }

  /** Exactly one kind of step loses a wakeup: the death of the only poster that has
      yet to signal, while a thread sleeps and the count is positive. */
  lemma WokenIff(z: Killing, st: Step, z': Killing)
    requires Alive(z) && AllWoken(z) && Takes(z, st, z')
    ensures AllWoken(z') <==> !Losing(z, st)
  {
    if Losing(z, st) {
      var k := z.s.pc[st.t].k;
      assert forall u :: Waker(z', u, k) ==> Waker(z, u, k);
      assert !Woken(z', k);
    } else {
      forall j | 0 <= j < |z'.s.sems| ensures Woken(z', j) {
        match st
        case Go(t, k, kind) => GoWakes(z, t, k, kind, z', j);
        case Kick(t, k) => KickWakes(z, t, k, z', j);
        case Die(t) => DieWakes(z, t, z', j);
      }
    }
  }

  ghost predicate Lossless(states: seq<Killing>, steps: seq<Step>, i: nat)
    requires i <= |steps| <= |states|
  {
    forall j :: 0 <= j < i ==> !Losing(states[j], steps[j])
  }

  /** In every run, whatever is killed, no wakeup is lost before the first such death,
      and one is lost right after it. */
  lemma {:induction false} RunWoken(states: seq<Killing>, steps: seq<Step>, i: nat)
    requires IsRun(states, steps) && i < |states| && Lossless(states, steps, i)
    ensures AllWoken(states[i])
    ensures i < |steps| ==> (AllWoken(states[i + 1]) <==> !Losing(states[i], steps[i]))
  {
    if 0 < i {
      RunWoken(states, steps, i - 1);
    }
    if i < |steps| {
      RunAlive(states, steps, i);
      WokenIff(states[i], steps[i], states[i + 1]);
    }
  }

  // ---------------------------------------------------------------- what a death leaves behind

  /** Thread t died with the mutex of semaphore k, which is m. */
  ghost predicate DiedHolding(z: Killing, t: nat, k: nat, m: Sem) {
    && t in z.dead && t in z.s.pc && HoldsMutex(z.s.pc[t], k)
    && k < |z.s.sems| && z.s.sems[k] == m && m.mutex == Some(t)
  }

  lemma StepLeavesDead(z: Killing, st: Step, z': Killing, t: nat, k: nat, m: Sem)
    requires Alive(z) && Takes(z, st, z') && DiedHolding(z, t, k, m)
    ensures DiedHolding(z', t, k, m)
  {
    assert HoldsMutex(z.s.pc[t], k) <==> z.s.sems[k].mutex == Some(t);
    if st.Go? {
      assert HoldsMutex(z.s.pc[st.t], k) <==> z.s.sems[k].mutex == Some(st.t);
      OtherLeaves(z.s, st.t, st.k, st.kind, z'.s, t, k);
    }
  }

  /** A step of another thread than the holder. */
  lemma OtherLeaves(s: State, u: nat, j: nat, kind: Kind, s': State, t: nat, k: nat)
    requires Next(s, u, j, kind, s') && u != t && t in s.pc && HoldsMutex(s.pc[t], k) && k < |s.sems|
    requires s.sems[k].mutex == Some(t) && !HoldsMutex(s.pc[u], k)
    ensures t in s'.pc && s'.pc[t] == s.pc[t] && k < |s'.sems| && s'.sems[k] == s.sems[k]
  {
  }

  ghost predicate StaysHeld(z: Killing, z': Killing, t: nat, k: nat, m: Sem) {
    DiedHolding(z, t, k, m) ==> DiedHolding(z', t, k, m)
  }

  lemma {:induction false} HeldOn(states: seq<Killing>, i: nat, j: nat, t: nat, k: nat, m: Sem)
    requires i <= j < |states| && DiedHolding(states[i], t, k, m)
    requires forall x :: i <= x < j ==> StaysHeld(states[x], states[x + 1], t, k, m)
    ensures DiedHolding(states[j], t, k, m)
    decreases j
  {
    if i < j {
      HeldOn(states, i, j - 1, t, k, m);
      assert StaysHeld(states[j - 1], states[j - 1 + 1], t, k, m);
    }
  }

  lemma RunStaysHeld(states: seq<Killing>, steps: seq<Step>, x: nat, t: nat, k: nat, m: Sem)
    requires IsRun(states, steps) && x < |steps|
    ensures StaysHeld(states[x], states[x + 1], t, k, m)
  {
    RunAlive(states, steps, x);
    if DiedHolding(states[x], t, k, m) {
      StepLeavesDead(states[x], steps[x], states[x + 1], t, k, m);
    }
  }

  /** A thread that dies between lock and unlock keeps the semaphore for ever: nobody
      takes its mutex or changes its count again. */
  lemma DeadHolder(states: seq<Killing>, steps: seq<Step>, i: nat, j: nat, t: nat, k: nat)
    requires IsRun(states, steps) && i <= j < |states| && t in states[i].dead && t in states[i].s.pc
    requires HoldsMutex(states[i].s.pc[t], k) && k < |states[i].s.sems|
    ensures DiedHolding(states[j], t, k, states[i].s.sems[k])
  {
    var m := states[i].s.sems[k];
    RunAlive(states, steps, i);
    HolderHas(states[i].s, t, k);
    forall x | i <= x < j ensures StaysHeld(states[x], states[x + 1], t, k, m) {
      RunStaysHeld(states, steps, x, t, k, m);
    }
    HeldOn(states, i, j, t, k, m);
  }

  lemma HolderHas(s: State, t: nat, k: nat)
    requires Locks(s) && t in s.pc && HoldsMutex(s.pc[t], k) && k < |s.sems|
    ensures s.sems[k].mutex == Some(t)
  {
  }

  ghost predicate Reachable(z: Killing) {
    exists states: seq<Killing>, steps: seq<Step> :: IsRun(states, steps) && states[|steps|] == z
  }

  lemma OneMore(z: Killing, st: Step, z': Killing)
    requires Reachable(z) && Takes(z, st, z')
    ensures Reachable(z')
  {
    var states: seq<Killing>, steps: seq<Step> :| IsRun(states, steps) && states[|steps|] == z;
    assert IsRun(states + [z'], steps + [st]);
    assert (states + [z'])[|steps + [st]|] == z';
  }

  function Pair(m: Sem, ptable: Option<nat>, a: Pc, b: Pc, dead: set<nat>): Killing {
    Killing(State([m], ptable, map[0 := a, 1 := b]), dead)
  }

  /** Thread 0 calls sem_wait(), */
  lemma OneCalls()
    ensures Reachable(Pair(Sem(0, None, 0, 0, 0), None, WLock(0), Idle, {}))
  {
    var z0 := Pair(Sem(0, None, 0, 0, 0), None, Idle, Idle, {});
    var none: seq<Step> := [];
    assert IsRun([z0], none) && [z0][|none|] == z0;
    OneMore(z0, Go(0, 0, Call(false)), Pair(Sem(0, None, 0, 0, 0), None, WLock(0), Idle, {}));
  }

  /** finds the semaphore empty, */
  lemma OneTests()
    ensures Reachable(Pair(Sem(0, Some(0), 0, 0, 0), None, WCond(0), Idle, {}))
  {
    OneCalls();
    var z2 := Pair(Sem(0, Some(0), 0, 0, 0), None, WTest(0), Idle, {});
    OneMore(Pair(Sem(0, None, 0, 0, 0), None, WLock(0), Idle, {}), Go(0, 0, Lock), z2);
    OneMore(z2, Go(0, 0, Test), Pair(Sem(0, Some(0), 0, 0, 0), None, WCond(0), Idle, {}));
  }

  /** gives the mutex back */
  lemma OneReleases()
    ensures Reachable(Pair(Sem(0, None, 0, 0, 0), Some(0), WSleep(0), Idle, {}))
  {
    OneTests();
    var m := Sem(0, Some(0), 0, 0, 0);
    var z4 := Pair(m, Some(0), WRelease(0), Idle, {});
    OneMore(Pair(m, None, WCond(0), Idle, {}), Go(0, 0, Ptable), z4);
    OneMore(z4, Go(0, 0, Release), Pair(m.(mutex := None), Some(0), WSleep(0), Idle, {}));
  }

  /** and sleeps; */
  lemma OneSleeps()
    ensures Reachable(Pair(Sem(0, None, 0, 0, 0), None, Asleep(0), Idle, {}))
  {
    OneReleases();
    var m := Sem(0, None, 0, 0, 0);
    OneMore(Pair(m, Some(0), WSleep(0), Idle, {}), Go(0, 0, Sleep), Pair(m, None, Asleep(0), Idle, {}));
  }

  /** thread 1 takes the mutex */
  lemma OtherLocks()
    ensures Reachable(Pair(Sem(0, Some(1), 0, 0, 0), None, Asleep(0), PInc(0), {}))
  {
    OneSleeps();
    var m := Sem(0, None, 0, 0, 0);
    var z7 := Pair(m, None, Asleep(0), PLock(0), {});
    OneMore(Pair(m, None, Asleep(0), Idle, {}), Go(1, 0, Call(true)), z7);
    OneMore(z7, Go(1, 0, Lock), Pair(m.(mutex := Some(1)), None, Asleep(0), PInc(0), {}));
  }

  /** and raises the count. */
  lemma OtherPosts()
    ensures Reachable(Pair(Sem(1, Some(1), 0, 1, 0), None, Asleep(0), PUnlock(0), {}))
  {
    OtherLocks();
    var z8 := Pair(Sem(0, Some(1), 0, 0, 0), None, Asleep(0), PInc(0), {});
    OneMore(z8, Go(1, 0, Increment), Pair(Sem(1, Some(1), 0, 1, 0), None, Asleep(0), PUnlock(0), {}));
  }

  /** Thread 1 posts and dies between thread_mutex_unlock() and thread_cond_signal():
      thread 0 sleeps with a count of 1 and nobody about to wake it. */
  lemma DeadPosterLosesWakeup() returns (z: Killing)
    ensures Reachable(z) && |z.s.sems| == 1 && z.s.sems[0].count == 1 && At(z.s, 0, Asleep(0))
    ensures forall u :: !Waker(z, u, 0)
  {
    OtherPosts();
    var z3 := Pair(Sem(1, Some(1), 0, 1, 0), None, Asleep(0), PUnlock(0), {});
    var z4 := Pair(Sem(1, None, 0, 1, 0), None, Asleep(0), PSignal(0), {});
    OneMore(z3, Go(1, 0, Unlock), z4);
    z := Pair(Sem(1, None, 0, 1, 0), None, Asleep(0), PSignal(0), {1});
    OneMore(z4, Die(1), z);
  }
}
