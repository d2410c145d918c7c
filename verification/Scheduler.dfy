/**
  proc.c as a state machine of any number of CPUs.  A CPU runs the loop of
  scheduler() or, on its kernel stack, the code of a process; swtch() moves it
  from one to the other while it holds ptable.lock.  Code that takes and releases
  ptable.lock without switching or reaping is one step.
*/
module Scheduler {
  import opened Options

  datatype PState = UNUSED | EMBRYO | SLEEPING | RUNNABLE | RUNNING | ZOMBIE

  /** What sleep() sleeps on: an address, or a process in wait(). */
  datatype Chan = Nothing | Addr(addr: nat) | OfProc(p: nat)

  /** Why a process gives up its CPU. */
  datatype Why = Yielding | Sleeping(chan: Chan) | InWait(threads: bool) | Exiting

  /** Where the code of a process is. */
  datatype Code =
    | Running                       // ptable.lock not held
    | Forkret                       // first time on a CPU, ptable.lock held for it
    | Crit(why: Why)                // lock taken, p->state not yet changed
    | Switch(why: Why)              // p->state changed, before swtch() in sched()
    | Off(why: Why)                 // inside swtch()
    | Reaping(i: nat, kids: bool, threads: bool)   // the scan of wait() or thread_join()

  datatype Proc = Proc(state: PState, kstack: Option<nat>, parent: Option<nat>, isthread: bool, chan: Chan,
                       killed: bool, code: Code, maker: Option<nat>)

  /** Where the scheduler of a CPU is. */
  datatype Sched = Open | Scan(i: nat) | Chosen(i: nat) | Marked(i: nat) | Away(i: nat)

  /** on is the process whose kernel stack the CPU executes on, proc is c->proc. */
  datatype Cpu = Cpu(sched: Sched, on: Option<nat>, proc: Option<nat>)

  datatype State = State(procs: seq<Proc>, cpus: seq<Cpu>, lock: Option<nat>, initproc: nat)

  // ---------------------------------------------------------------- the scheduler

  predicate InScheduler(s: State, c: nat) {
    c < |s.cpus| && s.cpus[c].on.None?
  }

  /** CPU c executes the code of process p. */
  predicate Executes(s: State, c: nat, p: nat) {
    c < |s.cpus| && s.cpus[c].on == Some(p) && p < |s.procs|
  }

  function SetCpu(s: State, c: nat, cpu: Cpu): State
    requires c < |s.cpus|
  {
    s.(cpus := s.cpus[c := cpu])
  }

  function SetProc(s: State, p: nat, proc: Proc): State
    requires p < |s.procs|
  {
    s.(procs := s.procs[p := proc])
  }

  predicate DoScan(s: State, c: nat, s': State) {
    && InScheduler(s, c) && s.cpus[c].sched.Open? && s.lock.None?
    && s' == SetCpu(s, c, s.cpus[c].(sched := Scan(0))).(lock := Some(c))
  }

  predicate DoSkip(s: State, c: nat, s': State) {
    && InScheduler(s, c) && s.cpus[c].sched.Scan? && s.cpus[c].sched.i < |s.procs|
    && s.procs[s.cpus[c].sched.i].state != RUNNABLE
    && s' == SetCpu(s, c, s.cpus[c].(sched := Scan(s.cpus[c].sched.i + 1)))
  }

  /** c->proc = p */
  predicate DoChoose(s: State, c: nat, s': State) {
    && InScheduler(s, c) && s.cpus[c].sched.Scan? && s.cpus[c].sched.i < |s.procs|
    && s.procs[s.cpus[c].sched.i].state == RUNNABLE
    && s' == SetCpu(s, c, Cpu(Chosen(s.cpus[c].sched.i), None, Some(s.cpus[c].sched.i)))
  }

  /** p->state = RUNNING */
  predicate DoMark(s: State, c: nat, s': State) {
    && InScheduler(s, c) && s.cpus[c].sched.Chosen? && s.cpus[c].sched.i < |s.procs|
    && s' == SetProc(SetCpu(s, c, s.cpus[c].(sched := Marked(s.cpus[c].sched.i))),
                     s.cpus[c].sched.i, s.procs[s.cpus[c].sched.i].(state := RUNNING))
  }

  /** swtch(&(c->scheduler), p->context) */
  predicate DoSwitchTo(s: State, c: nat, s': State) {
    && InScheduler(s, c) && s.cpus[c].sched.Marked?
    && s' == SetCpu(s, c, s.cpus[c].(sched := Away(s.cpus[c].sched.i), on := Some(s.cpus[c].sched.i)))
  }

  predicate DoDone(s: State, c: nat, s': State) {
    && InScheduler(s, c) && s.cpus[c].sched.Scan? && |s.procs| <= s.cpus[c].sched.i
    && s' == SetCpu(s, c, s.cpus[c].(sched := Open)).(lock := None)
  }

  // ---------------------------------------------------------------- a process leaves its CPU

  /** acquire(&ptable.lock) in yield(), sleep(), exit() and thread_exit(). */
  predicate DoEnter(s: State, c: nat, p: nat, why: Why, s': State) {
    && Executes(s, c, p) && s.procs[p].code.Running? && s.lock.None? && !why.InWait?
    && (why.Exiting? ==> p != s.initproc)
    && s' == SetProc(s, p, s.procs[p].(code := Crit(why))).(lock := Some(c))
  }

  /** wakeup1() */
  function Wake(procs: seq<Proc>, chan: Chan): (r: seq<Proc>)
    ensures |r| == |procs|
    ensures forall i :: 0 <= i < |r| ==>
      r[i] == if procs[i].state == SLEEPING && procs[i].chan == chan then procs[i].(state := RUNNABLE) else procs[i]
  {
    seq(|procs|, i requires 0 <= i < |procs| =>
      if procs[i].state == SLEEPING && procs[i].chan == chan then procs[i].(state := RUNNABLE) else procs[i])
  }

  /** Children of p pass to init. */
  function Adopt(procs: seq<Proc>, p: nat, init: nat): (r: seq<Proc>)
    ensures |r| == |procs|
    ensures forall i :: 0 <= i < |r| ==>
      r[i] == if procs[i].parent == Some(p) then procs[i].(parent := Some(init)) else procs[i]
  {
    seq(|procs|, i requires 0 <= i < |procs| =>
      if procs[i].parent == Some(p) then procs[i].(parent := Some(init)) else procs[i])
  }

  predicate LeftZombie(procs: seq<Proc>, p: nat) {
    exists i :: 0 <= i < |procs| && procs[i].parent == Some(p) && procs[i].state == ZOMBIE
  }

  /** The table after the loops of exit(): parent and, for a zombie child, init woken. */
  function Bequeath(procs: seq<Proc>, p: nat, init: nat): (r: seq<Proc>)
    requires p < |procs|
    ensures |r| == |procs|
  {
    var woken := if procs[p].parent.Some? then Wake(procs, OfProc(procs[p].parent.value)) else procs;
    var adopted := Adopt(woken, p, init);
    if LeftZombie(woken, p) then Wake(adopted, OfProc(init)) else adopted
  }

  /** The state that a process gives itself before it calls sched(). */
  function Target(why: Why): PState {
    match why
    case Yielding => RUNNABLE
    case Sleeping(_) => SLEEPING
    case InWait(_) => SLEEPING
    case Exiting => ZOMBIE
  }

  function ChanOf(why: Why, p: nat, chan: Chan): Chan {
    match why
    case Sleeping(c) => c
    case InWait(_) => OfProc(p)
    case _ => chan
  }

  predicate DoSet(s: State, c: nat, p: nat, s': State) {
    && Executes(s, c, p) && s.procs[p].code.Crit?
    && var why := s.procs[p].code.why;
    var procs := if why.Exiting? then Bequeath(s.procs, p, s.initproc) else s.procs;
    s' == s.(procs := procs[p := procs[p].(state := Target(why),
                                           chan := ChanOf(why, p, procs[p].chan), code := Switch(why))])
  }

  /** swtch(&p->context, mycpu()->scheduler), and c->proc = 0 on the other side. */
  predicate DoSwitchFrom(s: State, c: nat, p: nat, s': State) {
    && Executes(s, c, p) && s.procs[p].code.Switch? && s.cpus[c].sched.Away?
    && s' == SetProc(SetCpu(s, c, Cpu(Scan(s.cpus[c].sched.i + 1), None, None)),
                     p, s.procs[p].(code := Off(s.procs[p].code.why)))
  }

  /** Back on a CPU: forkret(), or the end of yield() or sleep(). */
  predicate DoRelease(s: State, c: nat, p: nat, s': State) {
    && Executes(s, c, p) && (s.procs[p].code.Forkret? || (s.procs[p].code.Off? && !s.procs[p].code.why.InWait?))
    && var chan := if s.procs[p].code.Off? && s.procs[p].code.why.Sleeping? then Nothing else s.procs[p].chan;
    s' == SetProc(s, p, s.procs[p].(code := Running, chan := chan)).(lock := None)
  }

  // ---------------------------------------------------------------- wait() and thread_join()

  predicate DoWait(s: State, c: nat, p: nat, threads: bool, s': State) {
    && Executes(s, c, p) && s.procs[p].code.Running? && s.lock.None?
    && s' == SetProc(s, p, s.procs[p].(code := Reaping(0, false, threads))).(lock := Some(c))
  }

  predicate AtSlot(s: State, c: nat, p: nat) {
    Executes(s, c, p) && s.procs[p].code.Reaping? && s.procs[p].code.i < |s.procs|
  }

  predicate Mine(s: State, p: nat, i: nat, threads: bool)
    requires i < |s.procs|
  {
    s.procs[i].isthread == threads && s.procs[i].parent == Some(p)
  }

  predicate DoPass(s: State, c: nat, p: nat, s': State) {
    && AtSlot(s, c, p)
    && var code := s.procs[p].code;
    !(Mine(s, p, code.i, code.threads) && s.procs[code.i].state == ZOMBIE)
    && s' == SetProc(s, p, s.procs[p].(code := Reaping(code.i + 1,
                                                       code.kids || Mine(s, p, code.i, code.threads), code.threads)))
  }

  /** kfree(p->kstack), and the slot is free. */
  predicate DoReap(s: State, c: nat, p: nat, s': State) {
    && AtSlot(s, c, p)
    && var code := s.procs[p].code;
    Mine(s, p, code.i, code.threads) && s.procs[code.i].state == ZOMBIE
    && var t := SetProc(s, code.i, s.procs[code.i].(state := UNUSED, kstack := None,
                                                    parent := None, killed := false, maker := None));
    s' == SetProc(t, p, t.procs[p].(code := Running)).(lock := None)
  }

  predicate DoGiveUp(s: State, c: nat, p: nat, s': State) {
    && Executes(s, c, p) && s.procs[p].code.Reaping? && |s.procs| <= s.procs[p].code.i
    && (!s.procs[p].code.kids || s.procs[p].killed)
    && s' == SetProc(s, p, s.procs[p].(code := Running)).(lock := None)
  }

  /** sleep(curproc, &ptable.lock) */
  predicate DoAwait(s: State, c: nat, p: nat, s': State) {
    && Executes(s, c, p) && s.procs[p].code.Reaping? && |s.procs| <= s.procs[p].code.i
    && s.procs[p].code.kids && !s.procs[p].killed
    && s' == SetProc(s, p, s.procs[p].(code := Crit(InWait(s.procs[p].code.threads))))
  }

  predicate DoRescan(s: State, c: nat, p: nat, s': State) {
    && Executes(s, c, p) && s.procs[p].code.Off? && s.procs[p].code.why.InWait?
    && s' == SetProc(s, p, s.procs[p].(code := Reaping(0, false, s.procs[p].code.why.threads), chan := Nothing))
  }

  // ---------------------------------------------------------------- the rest

  /** wakeup(), from a process or from an interrupt. */
  predicate DoWakeup(s: State, chan: Chan, s': State) {
    s.lock.None? && s' == s.(procs := Wake(s.procs, chan))
  }

  /** kill() */
  predicate DoKill(s: State, q: nat, s': State) {
    && s.lock.None? && q < |s.procs|
    && s' == SetProc(s, q, s.procs[q].(killed := true,
                                       state := if s.procs[q].state == SLEEPING then RUNNABLE else s.procs[q].state))
  }

  /** allocproc(): the slot */
  predicate DoAlloc(s: State, c: nat, p: nat, q: nat, s': State) {
    && Executes(s, c, p) && s.procs[p].code.Running? && s.lock.None? && q < |s.procs| && s.procs[q].state == UNUSED
    && s' == SetProc(s, q, s.procs[q].(state := EMBRYO, maker := Some(p)))
  }

  predicate Making(s: State, c: nat, p: nat, q: nat) {
    && Executes(s, c, p) && s.procs[p].code.Running?
    && q < |s.procs| && s.procs[q].state == EMBRYO && s.procs[q].maker == Some(p)
  }

  /** allocproc(): the kernel stack; kalloc() returns a page that is not in use. */
  ghost predicate DoStack(s: State, c: nat, p: nat, q: nat, page: nat, s': State) {
    && Making(s, c, p, q) && (forall i :: 0 <= i < |s.procs| ==> s.procs[i].kstack != Some(page))
    && s' == SetProc(s, q, s.procs[q].(kstack := Some(page), code := Forkret))
  }

  /** allocproc() or fork() fails; the slot is given up without the lock. */
  predicate DoAbandon(s: State, c: nat, p: nat, q: nat, s': State) {
    && Making(s, c, p, q)
    && s' == SetProc(s, q, s.procs[q].(state := UNUSED, kstack := None, maker := None))
  }

  /** The end of fork() and thread_create(). */
  predicate DoStart(s: State, c: nat, p: nat, q: nat, thread: bool, s': State) {
    && Making(s, c, p, q) && s.lock.None? && s.procs[q].kstack.Some? && s.procs[q].code.Forkret?
    && s' == SetProc(s, q, s.procs[q].(state := RUNNABLE,
                                       parent := Some(p), isthread := thread || s.procs[q].isthread, maker := None))
  }

  datatype Step =
    | ScanStep(c: nat) | Skip(c: nat) | Choose(c: nat) | Mark(c: nat) | SwitchTo(c: nat) | Done(c: nat)
    | Enter(c: nat, p: nat, why: Why) | Set(c: nat, p: nat) | SwitchFrom(c: nat, p: nat) | Release(c: nat, p: nat)
    | Wait(c: nat, p: nat, threads: bool) | Pass(c: nat, p: nat) | Reap(c: nat, p: nat) | GiveUp(c: nat, p: nat)
    | Await(c: nat, p: nat) | Rescan(c: nat, p: nat)
    | Wakeup(chan: Chan) | Kill(q: nat) | Alloc(c: nat, p: nat, q: nat) | Stack(c: nat, p: nat, q: nat, page: nat)
    | Abandon(c: nat, p: nat, q: nat) | Start(c: nat, p: nat, q: nat, thread: bool)

  ghost predicate Next(s: State, step: Step, s': State) {
    match step
    case ScanStep(c) => DoScan(s, c, s')
    case Skip(c) => DoSkip(s, c, s')
    case Choose(c) => DoChoose(s, c, s')
    case Mark(c) => DoMark(s, c, s')
    case SwitchTo(c) => DoSwitchTo(s, c, s')
    case Done(c) => DoDone(s, c, s')
    case Enter(c, p, why) => DoEnter(s, c, p, why, s')
    case Set(c, p) => DoSet(s, c, p, s')
    case SwitchFrom(c, p) => DoSwitchFrom(s, c, p, s')
    case Release(c, p) => DoRelease(s, c, p, s')
    case Wait(c, p, threads) => DoWait(s, c, p, threads, s')
    case Pass(c, p) => DoPass(s, c, p, s')
    case Reap(c, p) => DoReap(s, c, p, s')
    case GiveUp(c, p) => DoGiveUp(s, c, p, s')
    case Await(c, p) => DoAwait(s, c, p, s')
    case Rescan(c, p) => DoRescan(s, c, p, s')
    case Wakeup(chan) => DoWakeup(s, chan, s')
    case Kill(q) => DoKill(s, q, s')
    case Alloc(c, p, q) => DoAlloc(s, c, p, q, s')
    case Stack(c, p, q, page) => DoStack(s, c, p, q, page, s')
    case Abandon(c, p, q) => DoAbandon(s, c, p, q, s')
    case Start(c, p, q, thread) => DoStart(s, c, p, q, thread, s')
  }

  /** As the table is when the kernel starts. */
  predicate Blank(pr: Proc) {
    pr.parent.None? && pr.chan == Nothing && !pr.killed && !pr.isthread && pr.maker.None?
  }

  /** After userinit(): one process is ready, and every CPU is in its scheduler. */
  predicate Init(s: State) {
    && s.lock.None? && s.initproc < |s.procs|
    && (forall c :: 0 <= c < |s.cpus| ==> s.cpus[c] == Cpu(Open, None, None))
    && (forall p :: 0 <= p < |s.procs| ==> Blank(s.procs[p]))
    && (forall p :: 0 <= p < |s.procs| && p != s.initproc ==> s.procs[p].state == UNUSED && s.procs[p].kstack.None?)
    && s.procs[s.initproc].state == RUNNABLE && s.procs[s.initproc].kstack.Some? && s.procs[s.initproc].code.Forkret?
  }

  ghost predicate IsRun(states: seq<State>, steps: seq<Step>) {
    && |states| == |steps| + 1 && Init(states[0])
    && (forall i :: 0 <= i < |steps| ==> Next(states[i], steps[i], states[i + 1]))
  }

  // ---------------------------------------------------------------- invariants

  /** The code that CPU c executes holds ptable.lock. */
  predicate Holding(s: State, c: nat)
    requires c < |s.cpus|
  {
    match s.cpus[c].on
    case None => !s.cpus[c].sched.Open?
    case Some(p) => p < |s.procs| && !s.procs[p].code.Running?
  }

  ghost predicate LockOk(s: State) {
    forall c :: 0 <= c < |s.cpus| ==> (Holding(s, c) <==> s.lock == Some(c))
  }

  predicate CpuOk(s: State, cpu: Cpu) {
    && (cpu.on.Some? <==> cpu.sched.Away?)
    && (cpu.on.Some? ==> cpu.proc == cpu.on)
    && (match cpu.sched
        case Open => cpu.proc.None?
        case Scan(_) => cpu.proc.None?
        case _ => cpu.proc == Some(cpu.sched.i) && cpu.sched.i < |s.procs|)
  }

  ghost predicate CpusOk(s: State) {
    forall c :: 0 <= c < |s.cpus| ==> CpuOk(s, s.cpus[c])
  }

  /** No process is the current one of two CPUs. */
  ghost predicate OneCpu(s: State) {
    forall c, d ::
      0 <= c < |s.cpus| && 0 <= d < |s.cpus| && s.cpus[c].proc.Some? && s.cpus[c].proc == s.cpus[d].proc ==> c == d
  }

  /** A context that swtch() can go to. */
  predicate Resumable(code: Code) {
    code.Forkret? || (code.Off? && !code.why.Exiting?)
  }

  /** The process that a CPU has chosen or runs. */
  predicate CurrentOk(sched: Sched, pr: Proc) {
    && (sched.Chosen? ==> pr.state == RUNNABLE && Resumable(pr.code))
    && (sched.Marked? ==> pr.state == RUNNING && Resumable(pr.code))
    && (sched.Away? ==> pr.state == if pr.code.Switch? then Target(pr.code.why) else RUNNING)
    && (sched.Away? && pr.code.Off? ==> Resumable(pr.code))
  }

  ghost predicate CurrentsOk(s: State) {
    forall c :: 0 <= c < |s.cpus| && s.cpus[c].proc.Some? && s.cpus[c].proc.value < |s.procs| ==>
      CurrentOk(s.cpus[c].sched, s.procs[s.cpus[c].proc.value])
  }

  /** A process that no CPU has. */
  predicate RestOk(pr: Proc) {
    && pr.state != RUNNING
    && (pr.state == RUNNABLE || pr.state == SLEEPING ==> Resumable(pr.code))
    && (pr.state == ZOMBIE ==> pr.code == Off(Exiting))
  }

  ghost predicate Taken(s: State, p: nat) {
    exists c :: 0 <= c < |s.cpus| && s.cpus[c].proc == Some(p)
  }

  ghost predicate RestsOk(s: State) {
    forall p :: 0 <= p < |s.procs| && !Taken(s, p) ==> RestOk(s.procs[p])
  }

  predicate Stacked(pr: Proc) {
    pr.state == UNUSED || pr.state == EMBRYO || pr.kstack.Some?
  }

  ghost predicate StacksOk(s: State) {
    && (forall p :: 0 <= p < |s.procs| ==> Stacked(s.procs[p]))
    && (forall p, q :: 0 <= p < q < |s.procs| && s.procs[p].kstack.Some? ==> s.procs[p].kstack != s.procs[q].kstack)
  }

  ghost predicate Inv(s: State) {
    LockOk(s) && CpusOk(s) && OneCpu(s) && CurrentsOk(s) && RestsOk(s) && StacksOk(s)
  }

  lemma InitInv(s: State)
    requires Init(s)
    ensures Inv(s)
  {
  }

  // ---------------------------------------------------------------- kinds of steps

  /** CPU c, with the lock or about to take it, moves on in its scheduler. */
  lemma CpuStep(s: State, c: nat, cpu: Cpu, s': State)
    requires Inv(s) && c < |s.cpus| && (s.lock.None? || s.lock == Some(c))
    requires s'.procs == s.procs && s'.cpus == s.cpus[c := cpu] && s'.lock == if Holding(s', c) then Some(c) else None
    requires cpu.proc == s.cpus[c].proc && CpuOk(s, cpu)
    requires cpu.proc.Some? && cpu.proc.value < |s.procs| ==> CurrentOk(cpu.sched, s.procs[cpu.proc.value])
    ensures Inv(s')
  {
    forall d | 0 <= d < |s'.cpus|
      ensures s'.cpus[d].proc == s.cpus[d].proc && (Holding(s', d) <==> s'.lock == Some(d))
    {
      assert Holding(s, d) <==> s.lock == Some(d);
    }
    SameTaken(s, s');
  }

  lemma SameTaken(s: State, s': State)
    requires |s'.cpus| == |s.cpus| && |s'.procs| == |s.procs| && forall d :: 0 <= d < |s.cpus| ==>
      s'.cpus[d].proc == s.cpus[d].proc
    ensures forall p :: 0 <= p < |s.procs| ==> (Taken(s', p) <==> Taken(s, p))
  {
    forall p | 0 <= p < |s.procs| ensures Taken(s', p) <==> Taken(s, p) {
      if Taken(s, p) {
        var d :| 0 <= d < |s.cpus| && s.cpus[d].proc == Some(p);
        assert s'.cpus[d].proc == Some(p);
      }
    }
  }

  lemma TakenStays(s: State, s': State, q: nat)
    requires |s'.cpus| == |s.cpus| && forall d :: 0 <= d < |s.cpus| && s.cpus[d].proc == Some(q) ==>
      s'.cpus[d].proc == Some(q)
    ensures Taken(s, q) ==> Taken(s', q)
  {
    if Taken(s, q) {
      var d :| 0 <= d < |s.cpus| && s.cpus[d].proc == Some(q);
      assert s'.cpus[d].proc == Some(q);
    }
  }

  /** Process p, on CPU c, with the lock or about to take it, moves on. */
  lemma ProcStep(s: State, c: nat, p: nat, pr: Proc, s': State)
    requires Inv(s) && Executes(s, c, p) && (s.lock.None? || s.lock == Some(c))
    requires s'.cpus == s.cpus && s'.procs == s.procs[p := pr] && s'.lock == if pr.code.Running? then None else Some(c)
    requires pr.kstack == s.procs[p].kstack && Stacked(pr) && CurrentOk(s.cpus[c].sched, pr)
    ensures Inv(s')
  {
    assert CpuOk(s, s.cpus[c]);
    forall d | 0 <= d < |s'.cpus| ensures Holding(s', d) <==> s'.lock == Some(d) {
      assert Holding(s, d) <==> s.lock == Some(d);
      assert CpuOk(s, s.cpus[d]);
    }
    SameTaken(s, s');
    assert Taken(s, p);
  }

  /** A sleeping process may become runnable; parent, flags and channel are free. */
  predicate Soft(pr: Proc, pr': Proc) {
    && pr'.code == pr.code && pr'.kstack == pr.kstack
    && (pr'.state == pr.state || (pr.state == SLEEPING && pr'.state == RUNNABLE))
  }

  /** What wakeup1() and kill() do while no process is on its way out. */
  lemma SoftStep(s: State, s': State)
    requires Inv(s) && s'.cpus == s.cpus && s'.lock == s.lock && |s'.procs| == |s.procs|
    requires forall p :: 0 <= p < |s.procs| ==> Soft(s.procs[p], s'.procs[p])
    requires forall c :: 0 <= c < |s.cpus| && s.cpus[c].on.Some? && s.cpus[c].on.value < |s.procs| ==>
      !s.procs[s.cpus[c].on.value].code.Switch?
    ensures Inv(s')
  {
    SameTaken(s, s');
    forall c | 0 <= c < |s.cpus| ensures Holding(s', c) <==> s'.lock == Some(c) {
      assert Holding(s, c) <==> s.lock == Some(c);
      assert CpuOk(s, s.cpus[c]);
    }
    forall c | 0 <= c < |s.cpus| && s.cpus[c].proc.Some? && s.cpus[c].proc.value < |s.procs|
      ensures CurrentOk(s.cpus[c].sched, s'.procs[s.cpus[c].proc.value])
    {
      assert CpuOk(s, s.cpus[c]);
      assert CurrentOk(s.cpus[c].sched, s.procs[s.cpus[c].proc.value]);
    }
    forall p | 0 <= p < |s.procs| && !Taken(s, p) ensures RestOk(s'.procs[p]) {
      assert RestOk(s.procs[p]);
    }
    assert forall p :: 0 <= p < |s.procs| ==> Stacked(s.procs[p]) ==> Stacked(s'.procs[p]);
  }

  /** With the lock free no process is on its way out. */
  lemma NoneLeaving(s: State, c: nat)
    requires Inv(s) && c < |s.cpus| && s.cpus[c].on.Some? && s.cpus[c].on.value < |s.procs| && s.lock != Some(c)
    ensures s.procs[s.cpus[c].on.value].code.Running?
  {
    assert Holding(s, c) <==> s.lock == Some(c);
  }

  // ---------------------------------------------------------------- every step keeps the invariant

  /** The steps of scheduler() that leave c->proc alone. */
  lemma SchedulerKeeps(s: State, c: nat, s': State)
    requires Inv(s) && (DoScan(s, c, s') || DoSkip(s, c, s') || DoSwitchTo(s, c, s') || DoDone(s, c, s'))
    ensures Inv(s')
  {
    assert CpuOk(s, s.cpus[c]);
    assert Holding(s, c) <==> s.lock == Some(c);
    CpuStep(s, c, s'.cpus[c], s');
  }

  lemma ChooseKeeps(s: State, c: nat, s': State)
    requires Inv(s) && DoChoose(s, c, s')
    ensures Inv(s')
  {
    var p := s.cpus[c].sched.i;
    assert CpuOk(s, s.cpus[c]);
    assert Holding(s, c) <==> s.lock == Some(c);
    RunnableIsFree(s, c, p);
    forall d | 0 <= d < |s'.cpus| ensures Holding(s', d) <==> s'.lock == Some(d) {
      assert Holding(s, d) <==> s.lock == Some(d);
    }
    forall q | 0 <= q < |s.procs| ensures Taken(s, q) ==> Taken(s', q) {
      TakenStays(s, s', q);
    }
  }

  /** A CPU without the lock runs its process; with it, its process may be ready
      or on its way out. */
  lemma TakenState(s: State, d: nat)
    requires Inv(s) && d < |s.cpus| && s.cpus[d].proc.Some?
    ensures s.cpus[d].proc.value < |s.procs|
    ensures var pr := s.procs[s.cpus[d].proc.value];
      || pr.state == RUNNING
      || (s.lock == Some(d) && (s.cpus[d].sched.Chosen? || (s.cpus[d].on == s.cpus[d].proc && pr.code.Switch?)))
    ensures s.procs[s.cpus[d].proc.value].state != UNUSED && s.procs[s.cpus[d].proc.value].state != EMBRYO
  {
    assert CpuOk(s, s.cpus[d]);
    assert Holding(s, d) <==> s.lock == Some(d);
    assert CurrentOk(s.cpus[d].sched, s.procs[s.cpus[d].proc.value]);
  }

  /** Nobody else has a process that the holder of the lock finds runnable. */
  lemma RunnableIsFree(s: State, c: nat, p: nat)
    requires Inv(s) && InScheduler(s, c) && s.lock == Some(c) && p < |s.procs| && s.procs[p].state == RUNNABLE
    requires s.cpus[c].proc.None?
    ensures !Taken(s, p)
  {
    forall d | 0 <= d < |s.cpus| && s.cpus[d].proc.Some? ensures s.cpus[d].proc != Some(p) {
      TakenState(s, d);
    }
  }

  lemma MarkKeeps(s: State, c: nat, s': State)
    requires Inv(s) && DoMark(s, c, s')
    ensures Inv(s')
  {
    var p := s.cpus[c].sched.i;
    assert CpuOk(s, s.cpus[c]);
    assert CurrentOk(s.cpus[c].sched, s.procs[p]);
    assert Taken(s, p);
    SameTaken(s, s');
    forall d | 0 <= d < |s'.cpus| ensures Holding(s', d) <==> s'.lock == Some(d) {
      assert Holding(s, d) <==> s.lock == Some(d);
    }
    forall d | 0 <= d < |s'.cpus| && s'.cpus[d].proc.Some? && s'.cpus[d].proc.value < |s'.procs|
      ensures CurrentOk(s'.cpus[d].sched, s'.procs[s'.cpus[d].proc.value])
    {
      assert CurrentOk(s.cpus[d].sched, s.procs[s.cpus[d].proc.value]);
    }
  }

  lemma SwitchFromKeeps(s: State, c: nat, p: nat, s': State)
    requires Inv(s) && DoSwitchFrom(s, c, p, s')
    ensures Inv(s')
  {
    assert CpuOk(s, s.cpus[c]);
    assert CurrentOk(s.cpus[c].sched, s.procs[p]);
    forall d | 0 <= d < |s'.cpus| ensures Holding(s', d) <==> s'.lock == Some(d) {
      assert Holding(s, d) <==> s.lock == Some(d);
      assert CpuOk(s, s.cpus[d]);
    }
    forall q | 0 <= q < |s.procs| && q != p ensures Taken(s, q) ==> Taken(s', q) {
      TakenStays(s, s', q);
    }
  }

  /** The steps of a process that change nothing but its own entry. */
  lemma LocalKeeps(s: State, step: Step, s': State)
    requires Inv(s) && Next(s, step, s')
    requires step.Enter? || step.Release? || step.Wait? || step.Pass? || step.GiveUp? || step.Await? || step.Rescan?
    ensures Inv(s')
  {
    var c, p := step.c, step.p;
    assert CpuOk(s, s.cpus[c]);
    assert CurrentOk(s.cpus[c].sched, s.procs[p]);
    assert Holding(s, c) <==> s.lock == Some(c);
    assert Stacked(s.procs[p]);
    ProcStep(s, c, p, s'.procs[p], s');
  }

  lemma WokenKeeps(s: State, step: Step, s': State)
    requires Inv(s) && Next(s, step, s') && (step.Wakeup? || step.Kill?)
    ensures Inv(s')
  {
    forall c | 0 <= c < |s.cpus| && s.cpus[c].on.Some? && s.cpus[c].on.value < |s.procs|
      ensures !s.procs[s.cpus[c].on.value].code.Switch?
    {
      NoneLeaving(s, c);
    }
    SoftStep(s, s');
  }

  lemma BequeathSoft(procs: seq<Proc>, p: nat, init: nat, i: nat)
    requires p < |procs| && i < |procs|
    ensures Soft(procs[i], Bequeath(procs, p, init)[i])
  {
  }

  lemma SetKeeps(s: State, c: nat, p: nat, s': State)
    requires Inv(s) && DoSet(s, c, p, s')
    ensures Inv(s')
  {
    var why := s.procs[p].code.why;
    var t := s.(procs := if why.Exiting? then Bequeath(s.procs, p, s.initproc) else s.procs);
    assert CpuOk(s, s.cpus[c]);
    assert CurrentOk(s.cpus[c].sched, s.procs[p]);
    assert Holding(s, c) <==> s.lock == Some(c);
    forall d | 0 <= d < |s.cpus| && s.cpus[d].on.Some? && s.cpus[d].on.value < |s.procs|
      ensures !s.procs[s.cpus[d].on.value].code.Switch?
    {
      if d != c {
        NoneLeaving(s, d);
      }
    }
    forall i | 0 <= i < |s.procs| ensures Soft(s.procs[i], t.procs[i]) {
      BequeathSoft(s.procs, p, s.initproc, i);
    }
    SoftStep(s, t);
    assert Soft(s.procs[p], t.procs[p]) && Stacked(s.procs[p]);
    ProcStep(t, c, p, s'.procs[p], s');
  }

  /** A zombie that the holder of the lock finds is on no CPU. */
  lemma ZombieIsOff(s: State, c: nat, p: nat, i: nat)
    requires Inv(s) && Executes(s, c, p) && s.procs[p].code.Reaping? && i < |s.procs| && s.procs[i].state == ZOMBIE
    ensures !Taken(s, i) && i != p
  {
    assert Holding(s, c) <==> s.lock == Some(c);
    assert CpuOk(s, s.cpus[c]);
    assert CurrentOk(s.cpus[c].sched, s.procs[p]);
    forall d | 0 <= d < |s.cpus| && s.cpus[d].proc.Some? ensures s.cpus[d].proc != Some(i) {
      TakenState(s, d);
    }
  }

  /** A change of the entry of a process that no CPU has. */
  lemma SlotStep(s: State, i: nat, pr: Proc, s': State)
    requires Inv(s) && i < |s.procs| && !Taken(s, i) && RestOk(pr) && Stacked(pr) && s' == SetProc(s, i, pr)
    requires forall j :: 0 <= j < |s.procs| && j != i && pr.kstack.Some? ==> s.procs[j].kstack != pr.kstack
    ensures Inv(s')
  {
    SameTaken(s, s');
    forall d | 0 <= d < |s'.cpus| ensures Holding(s', d) <==> s'.lock == Some(d) {
      assert Holding(s, d) <==> s.lock == Some(d);
      assert CpuOk(s, s.cpus[d]);
    }
    forall d | 0 <= d < |s'.cpus| && s'.cpus[d].proc.Some? && s'.cpus[d].proc.value < |s'.procs|
      ensures CurrentOk(s'.cpus[d].sched, s'.procs[s'.cpus[d].proc.value])
    {
      assert CurrentOk(s.cpus[d].sched, s.procs[s.cpus[d].proc.value]);
    }
  }

  lemma ReapKeeps(s: State, c: nat, p: nat, s': State)
    requires Inv(s) && DoReap(s, c, p, s')
    ensures Inv(s')
  {
    var i := s.procs[p].code.i;
    var t := SetProc(s, i, s.procs[i].(state := UNUSED, kstack := None,
                                       parent := None, killed := false, maker := None));
    ZombieIsOff(s, c, p, i);
    SlotStep(s, i, t.procs[i], t);
    assert CpuOk(s, s.cpus[c]);
    assert CurrentOk(s.cpus[c].sched, s.procs[p]);
    assert Holding(s, c) <==> s.lock == Some(c);
    ProcStep(t, c, p, s'.procs[p], s');
  }

  /** fork() and thread_create() work on a slot that no CPU has. */
  lemma MakeKeeps(s: State, step: Step, s': State)
    requires Inv(s) && Next(s, step, s') && (step.Alloc? || step.Stack? || step.Abandon? || step.Start?)
    ensures Inv(s')
  {
    var q := step.q;
    forall d | 0 <= d < |s.cpus| && s.cpus[d].proc.Some? ensures s.cpus[d].proc != Some(q) {
      TakenState(s, d);
    }
    assert !Taken(s, q);
    SlotStep(s, q, s'.procs[q], s');
  }

  lemma StepKeeps(s: State, step: Step, s': State)
    requires Inv(s) && Next(s, step, s')
    ensures Inv(s')
  {
    match step
    case ScanStep(c) => SchedulerKeeps(s, c, s');
    case Skip(c) => SchedulerKeeps(s, c, s');
    case Choose(c) => ChooseKeeps(s, c, s');
    case Mark(c) => MarkKeeps(s, c, s');
    case SwitchTo(c) => SchedulerKeeps(s, c, s');
    case Done(c) => SchedulerKeeps(s, c, s');
    case Set(c, p) => SetKeeps(s, c, p, s');
    case SwitchFrom(c, p) => SwitchFromKeeps(s, c, p, s');
    case Reap(c, p) => ReapKeeps(s, c, p, s');
    case Wakeup(_) => WokenKeeps(s, step, s');
    case Kill(_) => WokenKeeps(s, step, s');
    case Alloc(_, _, _) => MakeKeeps(s, step, s');
    case Stack(_, _, _, _) => MakeKeeps(s, step, s');
    case Abandon(_, _, _) => MakeKeeps(s, step, s');
    case Start(_, _, _, _) => MakeKeeps(s, step, s');
    case _ => LocalKeeps(s, step, s');
  }

  lemma {:induction false} RunInv(states: seq<State>, steps: seq<Step>, i: nat)
    requires IsRun(states, steps) && i < |states|
    ensures Inv(states[i])
  {
    if i == 0 {
      InitInv(states[0]);
    } else {
      RunInv(states, steps, i - 1);
      StepKeeps(states[i - 1], steps[i - 1], states[i]);
    }
  }

  // ---------------------------------------------------------------- what the scheduler promises

  /** In every run no process executes on two CPUs, and one that is RUNNING is the
      current process of exactly one. */
  lemma RunsOnce(states: seq<State>, steps: seq<Step>, i: nat, c: nat, d: nat, p: nat)
    requires IsRun(states, steps) && i < |states| && c < |states[i].cpus| && d < |states[i].cpus|
    requires p < |states[i].procs|
    ensures states[i].cpus[c].on == Some(p) && states[i].cpus[d].on == Some(p) ==> c == d
    ensures states[i].procs[p].state == RUNNING ==>
      exists e :: 0 <= e < |states[i].cpus| && states[i].cpus[e].proc == Some(p)
    ensures
      states[i].procs[p].state == RUNNING && states[i].cpus[c].proc == Some(p) && states[i].cpus[d].proc == Some(p) ==>
      c == d
  {
    var s := states[i];
    RunInv(states, steps, i);
    assert CpuOk(s, s.cpus[c]) && CpuOk(s, s.cpus[d]);
    assert !Taken(s, p) ==> RestOk(s.procs[p]);
  }

  /** In every run a CPU that executes on a kernel stack executes on one that is
      allocated, and that no other process has. */
  lemma ExecutesOnStack(states: seq<State>, steps: seq<Step>, i: nat, c: nat, p: nat, q: nat)
    requires IsRun(states, steps) && i < |states| && Executes(states[i], c, p) && q < |states[i].procs|
    ensures states[i].procs[p].kstack.Some?
    ensures states[i].procs[q].kstack == states[i].procs[p].kstack ==> p == q
  {
    var s := states[i];
    RunInv(states, steps, i);
    TakenExecutes(s, c, p);
    TakenState(s, c);
    assert Stacked(s.procs[p]);
  }

  lemma TakenExecutes(s: State, c: nat, p: nat)
    requires Inv(s) && Executes(s, c, p)
    ensures s.cpus[c].proc == Some(p)
  {
    assert CpuOk(s, s.cpus[c]);
  }

  /** In every run the stack that wait() or thread_join() frees is one that no CPU
      executes on, and no other step takes a stack from a process that started. */
  lemma ReapsNoStackInUse(states: seq<State>, steps: seq<Step>, i: nat, q: nat, c: nat)
    requires IsRun(states, steps) && i < |steps| && q < |states[i].procs| && c < |states[i].cpus|
    requires states[i].procs[q].kstack.Some? && q < |states[i + 1].procs|
    requires states[i + 1].procs[q].kstack != states[i].procs[q].kstack
    ensures states[i].cpus[c].on != Some(q)
    ensures states[i].procs[q].state == EMBRYO || (states[i].procs[q].state == ZOMBIE && steps[i].Reap?)
  {
    var s, s' := states[i], states[i + 1];
    RunInv(states, steps, i);
    assert Next(s, steps[i], s');
    StackTaken(s, steps[i], s', q);
    if steps[i].Reap? {
      ZombieIsOff(s, steps[i].c, steps[i].p, q);
    }
    if s.cpus[c].on.Some? {
      assert CpuOk(s, s.cpus[c]);
      TakenState(s, c);
    }
  }

  lemma StackTaken(s: State, step: Step, s': State, q: nat)
    requires Inv(s) && Next(s, step, s') && q < |s.procs| && q < |s'.procs| && s.procs[q].kstack.Some?
    requires s'.procs[q].kstack != s.procs[q].kstack
    ensures s.procs[q].state != EMBRYO ==> s.procs[q].state == ZOMBIE && step.Reap? && AtSlot(s, step.c, step.p)
    ensures s.procs[q].state != EMBRYO ==> s.procs[step.p].code.i == q
  {
    if step.Set? {
      StackKept(s, step.c, step.p, s', q);
    } else if IsQuiet(step) {
      QuietStep(s, step, s', q);
    }
  }

  /** Steps that change no state in the table and no stack. */
  predicate IsQuiet(step: Step) {
    || step.ScanStep? || step.Skip? || step.Choose? || step.SwitchTo? || step.Done?
    || step.Enter? || step.SwitchFrom? || step.Release? || step.Wait? || step.Pass? || step.GiveUp?
    || step.Await? || step.Rescan?
  }

  lemma QuietStep(s: State, step: Step, s': State, q: nat)
    requires Next(s, step, s') && IsQuiet(step) && q < |s.procs|
    ensures q < |s'.procs| && s'.procs[q].state == s.procs[q].state && s'.procs[q].kstack == s.procs[q].kstack
  {
  }

  lemma StackKept(s: State, c: nat, p: nat, s': State, q: nat)
    requires DoSet(s, c, p, s') && q < |s.procs|
    ensures q < |s'.procs| && s'.procs[q].kstack == s.procs[q].kstack
  {
    BequeathSoft(s.procs, p, s.initproc, q);
  }

  /** In every run a ZOMBIE stays one until it is reaped, and no CPU executes it
      except the one that is about to switch away from it with ptable.lock held. */
  lemma ZombieNeverRuns(states: seq<State>, steps: seq<Step>, i: nat, p: nat)
    requires IsRun(states, steps) && i < |states| && p < |states[i].procs| && states[i].procs[p].state == ZOMBIE
    ensures forall c: nat :: Executes(states[i], c, p) ==>
      states[i].lock == Some(c) && states[i].procs[p].code == Switch(Exiting)
    ensures i < |steps| && p < |states[i + 1].procs| ==>
      states[i + 1].procs[p].state == ZOMBIE || (states[i + 1].procs[p].state == UNUSED && steps[i].Reap?)
    ensures i < |steps| ==> forall c: nat :: Executes(states[i + 1], c, p) ==> Executes(states[i], c, p)
  {
    var s := states[i];
    RunInv(states, steps, i);
    forall c: nat | Executes(s, c, p) ensures s.lock == Some(c) && s.procs[p].code == Switch(Exiting) {
      TakenExecutes(s, c, p);
      TakenState(s, c);
      assert CurrentOk(s.cpus[c].sched, s.procs[p]);
    }
    if i < |steps| {
      assert Next(s, steps[i], states[i + 1]);
      ZombieStep(s, steps[i], states[i + 1], p);
    }
  }

  lemma ZombieStep(s: State, step: Step, s': State, p: nat)
    requires Inv(s) && Next(s, step, s') && p < |s.procs| && s.procs[p].state == ZOMBIE
    ensures p < |s'.procs| && (s'.procs[p].state == ZOMBIE || (s'.procs[p].state == UNUSED && step.Reap?))
    ensures forall c: nat :: Executes(s', c, p) ==> Executes(s, c, p)
  {
    ZombieState(s, step, s', p);
    if step.SwitchTo? {
      assert CpuOk(s, s.cpus[step.c]);
      assert CurrentOk(s.cpus[step.c].sched, s.procs[s.cpus[step.c].sched.i]);
    }
  }

  lemma ZombieState(s: State, step: Step, s': State, p: nat)
    requires Inv(s) && Next(s, step, s') && p < |s.procs| && s.procs[p].state == ZOMBIE
    ensures p < |s'.procs| && (s'.procs[p].state == ZOMBIE || (s'.procs[p].state == UNUSED && step.Reap?))
  {
    if step.Set? {
      ZombieSet(s, step.c, step.p, s', p);
    } else if step.Mark? {
      ZombieMark(s, step.c, s', p);
    } else if IsQuiet(step) {
      QuietStep(s, step, s', p);
    }
  }

  lemma ZombieSet(s: State, c: nat, q: nat, s': State, p: nat)
    requires Inv(s) && DoSet(s, c, q, s') && p < |s.procs| && s.procs[p].state == ZOMBIE
    ensures p < |s'.procs| && s'.procs[p].state == ZOMBIE
  {
    BequeathSoft(s.procs, q, s.initproc, p);
    TakenExecutes(s, c, q);
    assert CurrentOk(s.cpus[c].sched, s.procs[q]);
  }

  lemma ZombieMark(s: State, c: nat, s': State, p: nat)
    requires Inv(s) && DoMark(s, c, s') && p < |s.procs| && s.procs[p].state == ZOMBIE
    ensures p < |s'.procs| && s'.procs[p].state == ZOMBIE
  {
    assert CpuOk(s, s.cpus[c]);
    assert CurrentOk(s.cpus[c].sched, s.procs[s.cpus[c].sched.i]);
  }

  /** Two panics of sched(), on ptable.lock and on a RUNNING process, and the one
      after it in exit() cannot happen: whoever is about to switch holds ptable.lock
      and is not RUNNING, and whoever comes back from swtch() did not exit.  The
      panics on other locks and on interrupts are not in the model. */
  lemma SchedNeverPanics(states: seq<State>, steps: seq<Step>, i: nat, c: nat, p: nat)
    requires IsRun(states, steps) && i < |states| && Executes(states[i], c, p)
    ensures states[i].procs[p].code.Switch? ==> states[i].lock == Some(c) && states[i].procs[p].state != RUNNING
    ensures states[i].procs[p].code != Off(Exiting)
  {
    var s := states[i];
    RunInv(states, steps, i);
    TakenExecutes(s, c, p);
    assert CpuOk(s, s.cpus[c]);
    assert Holding(s, c) <==> s.lock == Some(c);
    assert CurrentOk(s.cpus[c].sched, s.procs[p]);
  }
}
