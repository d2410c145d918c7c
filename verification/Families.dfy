/**
  Parents and children in proc.c: what fork(), exit(), wait() and their thread
  versions keep of the parent pointers, and that nobody sleeps in wait() with a
  zombie to reap.
*/
module Families {
  import opened Options
  import opened Scheduler

  predicate Live(pr: Proc) {
    pr.state == RUNNABLE || pr.state == RUNNING || pr.state == SLEEPING
  }

  predicate IsExit(code: Code) {
    (code.Crit? || code.Switch? || code.Off?) && code.why.Exiting?
  }

  // ---------------------------------------------------------------- parents

  /** init has no parent and does not exit. */
  ghost predicate InitOk(s: State) {
    && s.initproc < |s.procs| && s.procs[s.initproc].parent.None?
    && Live(s.procs[s.initproc]) && !IsExit(s.procs[s.initproc].code)
  }

  /** A parent is another process, and alive. */
  ghost predicate ParentOk(s: State, i: nat)
    requires i < |s.procs|
  {
    s.procs[i].parent.Some? ==>
      var p := s.procs[i].parent.value;
      p < |s.procs| && p != i && Live(s.procs[p])
  }

  /** Every process but init has a parent, from its start until it is reaped. */
  ghost predicate ChildOk(s: State, i: nat)
    requires i < |s.procs|
  {
    i != s.initproc ==> (s.procs[i].parent.Some? <==> Live(s.procs[i]) || s.procs[i].state == ZOMBIE)
  }

  ghost predicate FamilyOk(s: State) {
    && InitOk(s)
    && (forall i :: 0 <= i < |s.procs| ==> ParentOk(s, i) && ChildOk(s, i))
  }

  /** Nothing that the family tree is made of changes, except that states of the living
      change among themselves. */
  ghost predicate SameFamily(s: State, s': State) {
    && s'.initproc == s.initproc && |s'.procs| == |s.procs|
    && (forall i :: 0 <= i < |s.procs| ==>
          && s'.procs[i].parent == s.procs[i].parent
          && (s'.procs[i].state == s.procs[i].state || (Live(s.procs[i]) && Live(s'.procs[i]))))
    && (s.initproc < |s.procs| && IsExit(s'.procs[s.initproc].code) ==> IsExit(s.procs[s.initproc].code))
  }

  lemma SameFamilyKeeps(s: State, s': State)
    requires FamilyOk(s) && SameFamily(s, s')
    ensures FamilyOk(s')
  {
    forall i | 0 <= i < |s'.procs| ensures ParentOk(s', i) && ChildOk(s', i) {
      assert ParentOk(s, i) && ChildOk(s, i);
    }
  }

  lemma QuietFamily(s: State, step: Step, s': State)
    requires Next(s, step, s') && IsQuiet(step)
    ensures SameFamily(s, s')
  {
  }

  lemma WokenFamily(s: State, step: Step, s': State)
    requires Next(s, step, s') && (step.Wakeup? || step.Kill?)
    ensures SameFamily(s, s')
  {
  }

  /** The process on CPU c may give up its CPU. */
  lemma ExecutorLives(s: State, c: nat, p: nat)
    requires Inv(s) && Executes(s, c, p) && !s.procs[p].code.Switch?
    ensures s.procs[p].state == RUNNING && s.cpus[c].proc == Some(p)
  {
    TakenExecutes(s, c, p);
    assert CpuOk(s, s.cpus[c]) && CurrentOk(s.cpus[c].sched, s.procs[p]);
  }

  lemma MarkFamily(s: State, c: nat, s': State)
    requires Inv(s) && DoMark(s, c, s')
    ensures SameFamily(s, s')
  {
    assert CpuOk(s, s.cpus[c]) && CurrentOk(s.cpus[c].sched, s.procs[s.cpus[c].sched.i]);
  }

  lemma SetFamily(s: State, c: nat, p: nat, s': State)
    requires Inv(s) && DoSet(s, c, p, s') && !s.procs[p].code.why.Exiting?
    ensures SameFamily(s, s')
  {
    ExecutorLives(s, c, p);
  }

  /** The loops of exit(): what they do to the parents, */
  lemma BequeathParents(procs: seq<Proc>, p: nat, init: nat, i: nat)
    requires p < |procs| && i < |procs|
    ensures Bequeath(procs, p, init)[i].parent == if procs[i].parent == Some(p) then Some(init) else procs[i].parent
  {
  }

  /** to everything else, */
  lemma BequeathKeeps(procs: seq<Proc>, p: nat, init: nat, i: nat)
    requires p < |procs| && i < |procs|
    ensures var pr, pr' := procs[i], Bequeath(procs, p, init)[i];
      && pr'.code == pr.code && pr'.isthread == pr.isthread && pr'.killed == pr.killed && pr'.chan == pr.chan
      && (pr'.state == pr.state || (pr.state == SLEEPING && pr'.state == RUNNABLE))
  {
  }

  /** and that they wake the parent, and init for a zombie that it gets. */
  lemma BequeathWakes(procs: seq<Proc>, p: nat, init: nat, i: nat)
    requires p < |procs| && i < |procs|
    ensures procs[p].parent.Some? && procs[i].chan == OfProc(procs[p].parent.value) ==>
      Bequeath(procs, p, init)[i].state != SLEEPING
    ensures procs[i].chan == OfProc(init) && Bequeath(procs, p, init)[i].state == SLEEPING ==>
      forall j :: 0 <= j < |procs| && procs[j].parent == Some(p) ==> procs[j].state != ZOMBIE
  {
    var woken := if procs[p].parent.Some? then Wake(procs, OfProc(procs[p].parent.value)) else procs;
    forall j | 0 <= j < |procs| && procs[j].parent == Some(p) && procs[j].state == ZOMBIE ensures LeftZombie(woken, p) {
      assert woken[j] == procs[j];
    }
  }

  /** exit(): the children go to init, nobody is left with the process as parent, and no
      other parent changes. */
  lemma ExitHandsOver(s: State, c: nat, p: nat, s': State)
    requires DoSet(s, c, p, s') && s.procs[p].code.why.Exiting? && p != s.initproc
    ensures |s'.procs| == |s.procs| && s'.initproc == s.initproc && s'.procs[p].state == ZOMBIE
    ensures forall i :: 0 <= i < |s.procs| ==>
      s'.procs[i].parent == if s.procs[i].parent == Some(p) then Some(s.initproc) else s.procs[i].parent
    ensures forall i :: 0 <= i < |s.procs| ==> s'.procs[i].parent != Some(p)
  {
    forall i | 0 <= i < |s.procs|
      ensures s'.procs[i].parent == if s.procs[i].parent == Some(p) then Some(s.initproc) else s.procs[i].parent
    {
      BequeathParents(s.procs, p, s.initproc, i);
    }
  }

  lemma ExitKeepsFamily(s: State, c: nat, p: nat, s': State)
    requires Inv(s) && FamilyOk(s) && DoSet(s, c, p, s') && s.procs[p].code.why.Exiting?
    ensures FamilyOk(s')
  {
    ExitHandsOver(s, c, p, s');
    ExecutorLives(s, c, p);
    BequeathKeeps(s.procs, p, s.initproc, s.initproc);
    forall i | 0 <= i < |s'.procs| ensures ParentOk(s', i) && ChildOk(s', i) {
      assert ParentOk(s, i) && ChildOk(s, i);
      BequeathKeeps(s.procs, p, s.initproc, i);
      if s'.procs[i].parent.Some? {
        BequeathKeeps(s.procs, p, s.initproc, s'.procs[i].parent.value);
      }
    }
  }

  lemma ReapKeepsFamily(s: State, c: nat, p: nat, s': State)
    requires Inv(s) && FamilyOk(s) && DoReap(s, c, p, s')
    ensures FamilyOk(s')
  {
    var q := s.procs[p].code.i;
    ZombieIsOff(s, c, p, q);
    forall i | 0 <= i < |s'.procs| ensures ParentOk(s', i) && ChildOk(s', i) {
      assert ParentOk(s, i) && ChildOk(s, i);
    }
  }

  /** A slot that is no process becomes another, or a child of p. */
  lemma SlotFamily(s: State, q: nat, pr: Proc, p: nat, s': State)
    requires FamilyOk(s) && q < |s.procs| && (s.procs[q].state == UNUSED || s.procs[q].state == EMBRYO)
    requires p < |s.procs| && Live(s.procs[p]) && s' == SetProc(s, q, pr)
    requires if Live(pr) then pr.parent == Some(p) else pr.state != ZOMBIE && pr.parent == s.procs[q].parent
    ensures FamilyOk(s')
  {
    forall i | 0 <= i < |s'.procs| ensures ParentOk(s', i) && ChildOk(s', i) {
      assert ParentOk(s, i) && ChildOk(s, i);
    }
  }

  lemma MakeKeepsFamily(s: State, step: Step, s': State)
    requires Inv(s) && FamilyOk(s) && Next(s, step, s')
    requires step.Alloc? || step.Stack? || step.Abandon? || step.Start?
    ensures FamilyOk(s')
  {
    ExecutorLives(s, step.c, step.p);
    SlotFamily(s, step.q, s'.procs[step.q], step.p, s');
  }

  lemma StepKeepsFamily(s: State, step: Step, s': State)
    requires Inv(s) && FamilyOk(s) && Next(s, step, s')
    ensures FamilyOk(s')
  {
    if step.Set? {
      if s.procs[step.p].code.why.Exiting? {
        ExitKeepsFamily(s, step.c, step.p, s');
      } else {
        SetFamily(s, step.c, step.p, s');
        SameFamilyKeeps(s, s');
      }
    } else if step.Reap? {
      ReapKeepsFamily(s, step.c, step.p, s');
    } else if step.Alloc? || step.Stack? || step.Abandon? || step.Start? {
      MakeKeepsFamily(s, step, s');
    } else {
      if step.Mark? {
        MarkFamily(s, step.c, s');
      } else if step.Wakeup? || step.Kill? {
        WokenFamily(s, step, s');
      } else {
        QuietFamily(s, step, s');
      }
      SameFamilyKeeps(s, s');
    }
  }

  lemma {:induction false} RunFamily(states: seq<State>, steps: seq<Step>, i: nat)
    requires IsRun(states, steps) && i < |states|
    ensures FamilyOk(states[i])
  {
    if 0 < i {
      RunFamily(states, steps, i - 1);
      RunInv(states, steps, i - 1);
      StepKeepsFamily(states[i - 1], steps[i - 1], states[i]);
    }
  }

  // ---------------------------------------------------------------- wait() and thread_join()

  /** None of the first n processes is a zombie that p waits for. */
  ghost predicate Clean(s: State, p: nat, threads: bool, n: nat) {
    forall j :: 0 <= j < n && j < |s.procs| ==> !(Mine(s, p, j, threads) && s.procs[j].state == ZOMBIE)
  }

  ghost predicate HasKid(s: State, p: nat, threads: bool, n: nat) {
    exists j :: 0 <= j < n && j < |s.procs| && Mine(s, p, j, threads)
  }

  /** What wait() knows while it holds ptable.lock. */
  ghost predicate ScanOk(s: State, p: nat)
    requires p < |s.procs|
  {
    match s.procs[p].code
    case Reaping(i, kids, threads) => Clean(s, p, threads, i) && (kids <==> HasKid(s, p, threads, i))
    case Crit(InWait(threads)) =>
      !s.procs[p].killed && Clean(s, p, threads, |s.procs|) && HasKid(s, p, threads, |s.procs|)
    case _ => true
  }

  /** A process that sleeps in wait(). */
  predicate SleepsInWait(pr: Proc) {
    pr.state == SLEEPING && (pr.code.Switch? || pr.code.Off?) && pr.code.why.InWait?
  }

  /** It can be woken, was not killed, has a child to wait for and none to reap. */
  ghost predicate SleepOk(s: State, p: nat)
    requires p < |s.procs|
  {
    SleepsInWait(s.procs[p]) ==>
      && s.procs[p].chan == OfProc(p) && !s.procs[p].killed
      && Clean(s, p, s.procs[p].code.why.threads, |s.procs|)
      && HasKid(s, p, s.procs[p].code.why.threads, |s.procs|)
  }

  ghost predicate WaitOk(s: State) {
    && (forall c, p :: Executes(s, c, p) ==> ScanOk(s, p))
    && (forall p :: 0 <= p < |s.procs| ==> SleepOk(s, p))
  }

  /** No child comes or goes, and nobody becomes a zombie. */
  ghost predicate SameKids(s: State, s': State) {
    && |s'.procs| == |s.procs|
    && (forall j :: 0 <= j < |s.procs| ==>
          && s'.procs[j].parent == s.procs[j].parent && s'.procs[j].isthread == s.procs[j].isthread
          && (s'.procs[j].state == ZOMBIE ==> s.procs[j].state == ZOMBIE))
  }

  lemma KidsKept(s: State, s': State, p: nat, threads: bool, n: nat)
    requires SameKids(s, s')
    ensures Clean(s, p, threads, n) ==> Clean(s', p, threads, n)
    ensures HasKid(s, p, threads, n) <==> HasKid(s', p, threads, n)
  {
    forall j | 0 <= j < n && j < |s.procs| ensures Mine(s', p, j, threads) <==> Mine(s, p, j, threads) {
    }
  }

  /** Process p has the same code, channel and flags, and does not fall asleep. */
  predicate SameCode(pr: Proc, pr': Proc) {
    && pr'.code == pr.code && pr'.chan == pr.chan && pr'.killed == pr.killed
    && (pr'.state == SLEEPING ==> pr.state == SLEEPING)
  }

  lemma SleeperKept(s: State, s': State, p: nat)
    requires SameKids(s, s') && p < |s.procs| && SleepOk(s, p) && SameCode(s.procs[p], s'.procs[p])
    ensures SleepOk(s', p)
  {
    if SleepsInWait(s'.procs[p]) {
      KidsKept(s, s', p, s.procs[p].code.why.threads, |s.procs|);
    }
  }

  lemma ScanKept(s: State, s': State, p: nat)
    requires SameKids(s, s') && p < |s.procs| && ScanOk(s, p)
    requires s'.procs[p].code == s.procs[p].code && s'.procs[p].killed == s.procs[p].killed
    ensures ScanOk(s', p)
  {
    match s.procs[p].code
    case Reaping(i, kids, threads) => KidsKept(s, s', p, threads, i);
    case Crit(InWait(threads)) => KidsKept(s, s', p, threads, |s.procs|);
    case _ =>
  }

  lemma QuietKids(s: State, step: Step, s': State)
    requires Next(s, step, s') && IsQuiet(step)
    ensures SameKids(s, s')
  {
  }

  /** The scan of wait() goes on, or comes to its end. */
  lemma ScanStepOk(s: State, step: Step, s': State)
    requires (step.Pass? || step.Await?) && Next(s, step, s') && step.p < |s.procs| == |s'.procs| && ScanOk(s, step.p)
    ensures ScanOk(s', step.p)
  {
    var p := step.p;
    var i, threads := s.procs[p].code.i, s.procs[p].code.threads;
    QuietKids(s, step, s');
    KidsKept(s, s', p, threads, i);
    if step.Pass? {
      assert HasKid(s', p, threads, i + 1) <==> HasKid(s', p, threads, i) || Mine(s', p, i, threads);
    }
  }

  /** Which processes a quiet step leaves alone, and what it does to the others. */
  lemma QuietOthers(s: State, step: Step, s': State, p: nat)
    requires Next(s, step, s') && IsQuiet(step) && p < |s.procs| == |s'.procs|
    ensures s'.procs[p] != s.procs[p] ==>
      && !step.ScanStep? && !step.Skip? && !step.Choose? && !step.SwitchTo? && !step.Done?
      && step.p == p && Executes(s, step.c, p) && s'.procs[p].state == s.procs[p].state
    ensures forall c :: Executes(s', c, p) ==> Executes(s, c, p) || (step.SwitchTo? && step.c == c)
  {
  }

  lemma QuietScan(s: State, step: Step, s': State, c: nat, p: nat)
    requires Inv(s) && WaitOk(s) && Next(s, step, s') && IsQuiet(step) && Executes(s', c, p)
    ensures ScanOk(s', p)
  {
    QuietKids(s, step, s');
    QuietOthers(s, step, s', p);
    if Executes(s, c, p) {
      assert ScanOk(s, p);
      if s'.procs[p] == s.procs[p] {
        ScanKept(s, s', p);
      } else if step.Pass? || step.Await? {
        ScanStepOk(s, step, s');
      } else {
        QuietCode(s, step, s');
      }
    } else {
      assert CpuOk(s, s.cpus[c]) && CurrentOk(s.cpus[c].sched, s.procs[p]);
    }
  }

  /** The other steps of a process lead to code that knows nothing yet. */
  lemma QuietCode(s: State, step: Step, s': State)
    requires step.Enter? || step.SwitchFrom? || step.Release? || step.Wait? || step.GiveUp? || step.Rescan?
    requires Next(s, step, s') && step.p < |s.procs| == |s'.procs|
    ensures ScanOk(s', step.p)
  {
  }

  lemma QuietSleep(s: State, step: Step, s': State, p: nat)
    requires Inv(s) && WaitOk(s) && Next(s, step, s') && IsQuiet(step) && p < |s.procs|
    ensures p < |s'.procs| && SleepOk(s', p)
  {
    QuietKids(s, step, s');
    QuietOthers(s, step, s', p);
    assert SleepOk(s, p);
    if s'.procs[p] == s.procs[p] {
      SleeperKept(s, s', p);
    } else if step.SwitchFrom? {
      if SleepsInWait(s'.procs[p]) {
        KidsKept(s, s', p, s.procs[p].code.why.threads, |s.procs|);
      }
    } else {
      ExecutorLives(s, step.c, p);
    }
  }

  lemma QuietWait(s: State, step: Step, s': State)
    requires Inv(s) && WaitOk(s) && Next(s, step, s') && IsQuiet(step)
    ensures WaitOk(s')
  {
    QuietKids(s, step, s');
    forall c, p | Executes(s', c, p) ensures ScanOk(s', p) {
      QuietScan(s, step, s', c, p);
    }
    forall p | 0 <= p < |s'.procs| ensures SleepOk(s', p) {
      QuietSleep(s, step, s', p);
    }
  }

  /** Steps of others, and of the scheduler, that leave children and code alone. */
  lemma SoftWait(s: State, s': State)
    requires WaitOk(s) && SameKids(s, s') && s'.cpus == s.cpus
    requires forall p :: 0 <= p < |s.procs| ==> SameCode(s.procs[p], s'.procs[p])
    ensures WaitOk(s')
  {
    forall c, p | Executes(s', c, p) ensures ScanOk(s', p) {
      assert Executes(s, c, p) && ScanOk(s, p);
      ScanKept(s, s', p);
    }
    forall p | 0 <= p < |s'.procs| ensures SleepOk(s', p) {
      SleeperKept(s, s', p);
    }
  }

  /** With ptable.lock free nobody is in the scan. */
  lemma NoScan(s: State, s': State)
    requires Inv(s) && s.lock.None? && s'.cpus == s.cpus && |s'.procs| == |s.procs|
    requires forall p :: 0 <= p < |s.procs| && s.procs[p].code.Running? ==> s'.procs[p].code.Running?
    ensures forall c, p :: Executes(s', c, p) ==> ScanOk(s', p)
  {
    forall c, p | Executes(s', c, p) ensures ScanOk(s', p) {
      NoneLeaving(s, c);
    }
  }

  lemma MarkWait(s: State, c: nat, s': State)
    requires Inv(s) && WaitOk(s) && DoMark(s, c, s')
    ensures WaitOk(s')
  {
    var q := s.cpus[c].sched.i;
    forall e, p | Executes(s', e, p) ensures ScanOk(s', p) {
      assert Executes(s, e, p) && ScanOk(s, p);
      ScanKept(s, s', p);
    }
    forall p | 0 <= p < |s'.procs| ensures SleepOk(s', p) {
      SleeperKept(s, s', p);
    }
  }

  lemma WakeupWait(s: State, chan: Chan, s': State)
    requires WaitOk(s) && DoWakeup(s, chan, s')
    ensures WaitOk(s')
  {
    SoftWait(s, s');
  }

  lemma KillWait(s: State, q: nat, s': State)
    requires Inv(s) && WaitOk(s) && DoKill(s, q, s')
    ensures WaitOk(s')
  {
    NoScan(s, s');
    forall p | 0 <= p < |s'.procs| ensures SleepOk(s', p) {
      if p != q {
        SleeperKept(s, s', p);
      }
    }
  }

  /** A slot that is no process stays one. */
  lemma SlotWait(s: State, step: Step, s': State)
    requires Inv(s) && WaitOk(s) && Next(s, step, s') && (step.Alloc? || step.Stack? || step.Abandon?)
    ensures WaitOk(s')
  {
    var q := step.q;
    SlotUnused(s, step, s');
    forall c, p | Executes(s', c, p) ensures ScanOk(s', p) {
      assert Executes(s, c, p) && ScanOk(s, p);
      SlotIdle(s, c, p, q);
      ScanKept(s, s', p);
    }
    forall p | 0 <= p < |s'.procs| ensures SleepOk(s', p) {
      if p != q {
        SleeperKept(s, s', p);
      }
    }
  }

  lemma SlotUnused(s: State, step: Step, s': State)
    requires Next(s, step, s') && (step.Alloc? || step.Stack? || step.Abandon?)
    ensures step.q < |s.procs| && s' == SetProc(s, step.q, s'.procs[step.q]) && SameKids(s, s')
    ensures s.procs[step.q].state == UNUSED || s.procs[step.q].state == EMBRYO
    ensures s'.procs[step.q].state == UNUSED || s'.procs[step.q].state == EMBRYO
  {
  }

  lemma SlotIdle(s: State, c: nat, p: nat, q: nat)
    requires Inv(s) && Executes(s, c, p) && q < |s.procs| && (s.procs[q].state == UNUSED || s.procs[q].state == EMBRYO)
    ensures p != q
  {
    TakenExecutes(s, c, p);
    TakenState(s, c);
  }

  lemma StartSleep(s: State, c: nat, p: nat, q: nat, thread: bool, s': State, r: nat)
    requires FamilyOk(s) && WaitOk(s) && DoStart(s, c, p, q, thread, s') && r < |s'.procs|
    ensures SleepOk(s', r)
  {
    assert ChildOk(s, q) && SleepOk(s, r);
    if SleepsInWait(s'.procs[r]) {
      NewKid(s, s', q, r, s.procs[r].code.why.threads);
    }
  }

  lemma StartWait(s: State, c: nat, p: nat, q: nat, thread: bool, s': State)
    requires Inv(s) && FamilyOk(s) && WaitOk(s) && DoStart(s, c, p, q, thread, s')
    ensures WaitOk(s')
  {
    NoScan(s, s');
    forall r | 0 <= r < |s'.procs| ensures SleepOk(s', r) {
      StartSleep(s, c, p, q, thread, s', r);
    }
  }

  /** A child more, and not a zombie. */
  lemma NewKid(s: State, s': State, q: nat, r: nat, threads: bool)
    requires q < |s.procs| == |s'.procs| && s.procs[q].parent.None? && Live(s'.procs[q])
    requires s' == SetProc(s, q, s'.procs[q])
    ensures Clean(s, r, threads, |s.procs|) ==> Clean(s', r, threads, |s'.procs|)
    ensures HasKid(s, r, threads, |s.procs|) ==> HasKid(s', r, threads, |s'.procs|)
  {
    if j :| 0 <= j < |s.procs| && Mine(s, r, j, threads) {
      assert Mine(s', r, j, threads);
    }
  }

  lemma ReapWait(s: State, c: nat, p: nat, s': State)
    requires Inv(s) && WaitOk(s) && DoReap(s, c, p, s')
    ensures WaitOk(s')
  {
    var q := s.procs[p].code.i;
    ZombieIsOff(s, c, p, q);
    ExecutorLives(s, c, p);
    assert Holding(s, c) <==> s.lock == Some(c);
    forall e, r | Executes(s', e, r) ensures ScanOk(s', r) {
      assert Executes(s, e, r);
      if e != c {
        NoneLeaving(s, e);
      }
    }
    forall r | 0 <= r < |s'.procs| ensures SleepOk(s', r) {
      assert SleepOk(s, r);
      if r != p && r != q && SleepsInWait(s'.procs[r]) {
        KidGone(s, s', p, q, r, s.procs[r].code.why.threads);
      }
    }
  }

  /** The child of another is gone. */
  lemma KidGone(s: State, s': State, p: nat, q: nat, r: nat, threads: bool)
    requires p < |s.procs| == |s'.procs| && q < |s.procs| && s.procs[q].parent == Some(p) && r != p
    requires forall j :: 0 <= j < |s.procs| && j != q ==>
      && s'.procs[j].parent == s.procs[j].parent && s'.procs[j].isthread == s.procs[j].isthread
      && s'.procs[j].state == s.procs[j].state
    requires s'.procs[q].parent.None?
    ensures Clean(s, r, threads, |s.procs|) ==> Clean(s', r, threads, |s'.procs|)
    ensures HasKid(s, r, threads, |s.procs|) ==> HasKid(s', r, threads, |s'.procs|)
  {
    if j :| 0 <= j < |s.procs| && Mine(s, r, j, threads) {
      assert j != q && Mine(s', r, j, threads);
    }
  }

  /** yield(), sleep() and the sleep of wait(). */
  lemma SetWait(s: State, c: nat, p: nat, s': State)
    requires Inv(s) && WaitOk(s) && DoSet(s, c, p, s') && !s.procs[p].code.why.Exiting?
    ensures WaitOk(s')
  {
    assert ScanOk(s, p);
    forall e, r | Executes(s', e, r) ensures ScanOk(s', r) {
      assert Executes(s, e, r) && ScanOk(s, r);
      if r != p {
        ScanKept(s, s', r);
      }
    }
    forall r | 0 <= r < |s'.procs| ensures SleepOk(s', r) {
      if r != p {
        SleeperKept(s, s', r);
      } else if SleepsInWait(s'.procs[p]) {
        KidsKept(s, s', p, s.procs[p].code.why.threads, |s.procs|);
      }
    }
  }

  /** exit() wakes whoever has a zombie to reap after it: a process r that still sleeps
      does not have j as one. */
  lemma ExitClean(s: State, p: nat, procs: seq<Proc>, r: nat, j: nat, threads: bool)
    requires p < |s.procs| && procs == Bequeath(s.procs, p, s.initproc) && s.procs[p].state == RUNNING
    requires r < |s.procs| && procs[r].state == SLEEPING && s.procs[r].chan == OfProc(r) && j < |s.procs|
    requires ParentOk(s, p) && !(Mine(s, r, j, threads) && s.procs[j].state == ZOMBIE)
    ensures !(procs[j].parent == Some(r) && procs[j].isthread == threads && (procs[j].state == ZOMBIE || j == p))
  {
    BequeathParents(s.procs, p, s.initproc, j);
    BequeathKeeps(s.procs, p, s.initproc, j);
    BequeathWakes(s.procs, p, s.initproc, r);
  }

  lemma ExitSleep(s: State, c: nat, p: nat, s': State, r: nat)
    requires Inv(s) && FamilyOk(s) && WaitOk(s) && DoSet(s, c, p, s') && s.procs[p].code.why.Exiting?
    requires r < |s'.procs| && SleepsInWait(s'.procs[r])
    ensures r < |s.procs| && SleepOk(s', r)
  {
    var procs := Bequeath(s.procs, p, s.initproc);
    ExecutorLives(s, c, p);
    BequeathKeeps(s.procs, p, s.initproc, r);
    assert r != p && s'.procs[r] == procs[r] && SleepOk(s, r) && ParentOk(s, p);
    var threads := s.procs[r].code.why.threads;
    forall j | 0 <= j < |s'.procs| ensures !(Mine(s', r, j, threads) && s'.procs[j].state == ZOMBIE) {
      assert !(Mine(s, r, j, threads) && s.procs[j].state == ZOMBIE);
      ExitClean(s, p, procs, r, j, threads);
    }
    ExitKid(s, p, procs, s', r, threads);
  }

  lemma ExitKid(s: State, p: nat, procs: seq<Proc>, s': State, r: nat, threads: bool)
    requires p < |s.procs| == |s'.procs| && procs == Bequeath(s.procs, p, s.initproc) && r != p
    requires s'.procs == procs[p := s'.procs[p]] && s'.procs[p].parent == procs[p].parent
    requires s'.procs[p].isthread == procs[p].isthread && HasKid(s, r, threads, |s.procs|)
    ensures HasKid(s', r, threads, |s'.procs|)
  {
    var k :| 0 <= k < |s.procs| && Mine(s, r, k, threads);
    BequeathParents(s.procs, p, s.initproc, k);
    BequeathKeeps(s.procs, p, s.initproc, k);
    assert Mine(s', r, k, threads);
  }

  lemma ExitWait(s: State, c: nat, p: nat, s': State)
    requires Inv(s) && FamilyOk(s) && WaitOk(s) && DoSet(s, c, p, s') && s.procs[p].code.why.Exiting?
    ensures WaitOk(s')
  {
    assert Holding(s, c) <==> s.lock == Some(c);
    forall e, r | Executes(s', e, r) ensures ScanOk(s', r) {
      assert Executes(s, e, r);
      if e != c {
        NoneLeaving(s, e);
        BequeathKeeps(s.procs, p, s.initproc, r);
      }
    }
    forall r | 0 <= r < |s'.procs| ensures SleepOk(s', r) {
      if SleepsInWait(s'.procs[r]) {
        ExitSleep(s, c, p, s', r);
      }
    }
  }

  lemma StepKeepsWait(s: State, step: Step, s': State)
    requires Inv(s) && FamilyOk(s) && WaitOk(s) && Next(s, step, s')
    ensures WaitOk(s')
  {
    match step
    case Set(c, p) =>
      if s.procs[p].code.why.Exiting? {
        ExitWait(s, c, p, s');
      } else {
        SetWait(s, c, p, s');
      }
    case Mark(c) => MarkWait(s, c, s');
    case Reap(c, p) => ReapWait(s, c, p, s');
    case Wakeup(chan) => WakeupWait(s, chan, s');
    case Kill(q) => KillWait(s, q, s');
    case Alloc(_, _, _) => SlotWait(s, step, s');
    case Stack(_, _, _, _) => SlotWait(s, step, s');
    case Abandon(_, _, _) => SlotWait(s, step, s');
    case Start(c, p, q, thread) => StartWait(s, c, p, q, thread, s');
    case _ => QuietWait(s, step, s');
  }

  lemma {:induction false} RunWait(states: seq<State>, steps: seq<Step>, i: nat)
    requires IsRun(states, steps) && i < |states|
    ensures WaitOk(states[i])
  {
    if 0 < i {
      RunWait(states, steps, i - 1);
      RunInv(states, steps, i - 1);
      RunFamily(states, steps, i - 1);
      StepKeepsWait(states[i - 1], steps[i - 1], states[i]);
    }
  }

  // ---------------------------------------------------------------- what fork, exit and wait promise

  /** In every run every process but init has a parent that is alive, which can reap it,
      and nobody has a zombie or a free slot as parent. */
  lemma HasLiveParent(states: seq<State>, steps: seq<Step>, i: nat, p: nat)
    requires IsRun(states, steps) && i < |states| && p < |states[i].procs| && p != states[i].initproc
    ensures Live(states[i].procs[p]) || states[i].procs[p].state == ZOMBIE <==> states[i].procs[p].parent.Some?
    ensures states[i].procs[p].parent.Some? ==>
      var q := states[i].procs[p].parent.value; q < |states[i].procs| && q != p && Live(states[i].procs[q])
  {
    RunFamily(states, steps, i);
    assert ParentOk(states[i], p) && ChildOk(states[i], p);
  }

  /** In every run whoever sleeps in wait() or in thread_join() has a child of the kind
      that it waits for, none that is a zombie, and was not killed; the exit of a child
      will wake it. */
  lemma WaitsForReason(states: seq<State>, steps: seq<Step>, i: nat, p: nat, threads: bool)
    requires IsRun(states, steps) && i < |states| && p < |states[i].procs| && states[i].procs[p].state == SLEEPING
    requires states[i].procs[p].code == Off(InWait(threads)) || states[i].procs[p].code == Switch(InWait(threads))
    ensures states[i].procs[p].chan == OfProc(p) && !states[i].procs[p].killed
    ensures exists j :: 0 <= j < |states[i].procs| && Mine(states[i], p, j, threads)
    ensures forall j :: 0 <= j < |states[i].procs| && Mine(states[i], p, j, threads) ==>
      states[i].procs[j].state != ZOMBIE
  {
    RunWait(states, steps, i);
    assert SleepOk(states[i], p);
  }

  /** In every run wait() returns -1 only to a process without a child of that kind, or
      to one that was killed. */
  lemma WaitFails(states: seq<State>, steps: seq<Step>, i: nat, c: nat, p: nat, j: nat)
    requires IsRun(states, steps) && i < |steps| && steps[i] == GiveUp(c, p) && j < |states[i].procs|
    ensures p < |states[i].procs| && states[i].procs[p].code.Reaping?
    ensures states[i].procs[p].killed || !Mine(states[i], p, j, states[i].procs[p].code.threads)
  {
    RunWait(states, steps, i);
    assert Next(states[i], steps[i], states[i + 1]);
    assert Executes(states[i], c, p) && ScanOk(states[i], p);
  }
}
