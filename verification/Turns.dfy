/**
  proc.c: ptable.lock comes free again, no CPU is ever stuck, and the scheduler gives
  every slot of the table its turn.
*/
module Turns {
  import opened Options
  import opened Scheduler

  /** The CPU that takes a step; wakeup() and kill() may come from any. */
  function CpuOf(step: Step): Option<nat> {
    if step.Wakeup? || step.Kill? then None else Some(step.c)
  }

  // ---------------------------------------------------------------- no CPU is stuck

  ghost predicate CanStep(s: State, c: nat) {
    exists step, s' :: CpuOf(step) == Some(c) && Next(s, step, s')
  }

  /** ptable.lock is held by another CPU. */
  predicate Kept(s: State, c: nat) {
    s.lock.Some? && s.lock != Some(c)
  }

  lemma SchedulerCan(s: State, c: nat)
    requires InScheduler(s, c) && !Kept(s, c) && CpuOk(s, s.cpus[c]) && (Holding(s, c) <==> s.lock == Some(c))
    ensures CanStep(s, c)
  {
    var cpu := s.cpus[c];
    match cpu.sched
    case Open =>
      assert Next(s, ScanStep(c), SetCpu(s, c, cpu.(sched := Scan(0))).(lock := Some(c)));
    case Scan(i) =>
      if |s.procs| <= i {
        assert Next(s, Done(c), SetCpu(s, c, cpu.(sched := Open)).(lock := None));
      } else if s.procs[i].state == RUNNABLE {
        assert Next(s, Choose(c), SetCpu(s, c, Cpu(Chosen(i), None, Some(i))));
      } else {
        assert Next(s, Skip(c), SetCpu(s, c, cpu.(sched := Scan(i + 1))));
      }
    case Chosen(i) =>
      assert Next(s, Mark(c), SetProc(SetCpu(s, c, cpu.(sched := Marked(i))), i, s.procs[i].(state := RUNNING)));
    case Marked(i) =>
      assert Next(s, SwitchTo(c), SetCpu(s, c, cpu.(sched := Away(i), on := Some(i))));
    case Away(_) =>
  }

  lemma WaitCan(s: State, c: nat, p: nat)
    requires Executes(s, c, p) && s.procs[p].code.Reaping?
    ensures CanStep(s, c)
  {
    var pr, code := s.procs[p], s.procs[p].code;
    if |s.procs| <= code.i {
      if !code.kids || pr.killed {
        assert Next(s, GiveUp(c, p), SetProc(s, p, pr.(code := Running)).(lock := None));
      } else {
        assert Next(s, Await(c, p), SetProc(s, p, pr.(code := Crit(InWait(code.threads)))));
      }
    } else {
      ScanCan(s, c, p);
    }
  }

  lemma ScanCan(s: State, c: nat, p: nat)
    requires AtSlot(s, c, p)
    ensures CanStep(s, c)
  {
    var pr, code := s.procs[p], s.procs[p].code;
    if Mine(s, p, code.i, code.threads) && s.procs[code.i].state == ZOMBIE {
      var t := SetProc(s, code.i, s.procs[code.i].(state := UNUSED, kstack := None,
                                                   parent := None, killed := false, maker := None));
      assert Next(s, Reap(c, p), SetProc(t, p, t.procs[p].(code := Running)).(lock := None));
    } else {
      var kids := code.kids || Mine(s, p, code.i, code.threads);
      assert Next(s, Pass(c, p), SetProc(s, p, pr.(code := Reaping(code.i + 1, kids, code.threads))));
    }
  }

  lemma ProcessCan(s: State, c: nat, p: nat)
    requires Executes(s, c, p) && !Kept(s, c) && CpuOk(s, s.cpus[c]) && (Holding(s, c) <==> s.lock == Some(c))
    requires CurrentOk(s.cpus[c].sched, s.procs[p]) && !s.procs[p].code.Reaping?
    ensures CanStep(s, c)
  {
    var pr := s.procs[p];
    match pr.code
    case Running => assert Next(s, Enter(c, p, Yielding), SetProc(s, p, pr.(code := Crit(Yielding))).(lock := Some(c)));
    case Forkret => assert Next(s, Release(c, p), SetProc(s, p, pr.(code := Running, chan := pr.chan)).(lock := None));
    case Crit(why) =>
      var procs := if why.Exiting? then Bequeath(s.procs, p, s.initproc) else s.procs;
      var pr' := procs[p].(state := Target(why), chan := ChanOf(why, p, procs[p].chan), code := Switch(why));
      assert Next(s, Set(c, p), s.(procs := procs[p := pr']));
    case Switch(why) =>
      var t := SetCpu(s, c, Cpu(Scan(s.cpus[c].sched.i + 1), None, None));
      assert Next(s, SwitchFrom(c, p), SetProc(t, p, pr.(code := Off(why))));
    case Off(why) =>
      if why.InWait? {
        assert Next(s, Rescan(c, p), SetProc(s, p, pr.(code := Reaping(0, false, why.threads), chan := Nothing)));
      } else {
        var chan := if why.Sleeping? then Nothing else pr.chan;
        assert Next(s, Release(c, p), SetProc(s, p, pr.(code := Running, chan := chan)).(lock := None));
      }
  }

  /** In every run each CPU can take a step, unless another one holds ptable.lock. */
  lemma NeverStuck(states: seq<State>, steps: seq<Step>, i: nat, c: nat)
    requires IsRun(states, steps) && i < |states| && c < |states[i].cpus| && !Kept(states[i], c)
    ensures CanStep(states[i], c)
  {
    var s := states[i];
    RunInv(states, steps, i);
    assert CpuOk(s, s.cpus[c]) && (Holding(s, c) <==> s.lock == Some(c));
    if s.cpus[c].on.None? {
      SchedulerCan(s, c);
    } else {
      var p := s.cpus[c].on.value;
      if s.procs[p].code.Reaping? {
        WaitCan(s, c, p);
      } else {
        assert CurrentOk(s.cpus[c].sched, s.procs[p]);
        ProcessCan(s, c, p);
      }
    }
  }

  // ---------------------------------------------------------------- ptable.lock comes free

  /** What a process still does with ptable.lock. */
  function Rank(code: Code, n: nat): (r: nat)
    ensures r <= n + 3
  {
    match code
    case Switch(_) => 0
    case Crit(_) => 1
    case Reaping(i, _, _) => if i <= n then 2 + (n - i) else 2
    case Off(why) => if why.InWait? then n + 3 else 0
    case _ => 0
  }

  /** How many slots the scheduler of c still has before it. */
  function Before(s: State, c: nat): nat
    requires c < |s.cpus|
  {
    var n, sched := |s.procs|, s.cpus[c].sched;
    if sched.Open? || n <= sched.i then 0 else n - sched.i
  }

  /** What it, or the process that it runs, still does for this one. */
  function Within(s: State, c: nat): (r: nat)
    requires c < |s.cpus|
    ensures r <= |s.procs| + 6
  {
    var n := |s.procs|;
    match s.cpus[c].sched
    case Open => 0
    case Scan(_) => n + 6
    case Chosen(_) => n + 5
    case Marked(_) => n + 4
    case Away(_) =>
      var on := s.cpus[c].on;
      if on.Some? && on.value < n then Rank(s.procs[on.value].code, n) else 0
  }

  /** At most so many steps of c are left until it releases ptable.lock. */
  function Budget(s: State, c: nat): nat
    requires c < |s.cpus|
  {
    Before(s, c) * (|s.procs| + 7) + Within(s, c)
  }

  predicate Less(s: State, s': State, c: nat) {
    && c < |s.cpus| && c < |s'.cpus| && |s'.procs| == |s.procs|
    && (Before(s', c) < Before(s, c) || (Before(s', c) == Before(s, c) && Within(s', c) < Within(s, c)))
  }

  predicate Equal(s: State, s': State, c: nat) {
    && c < |s.cpus| && c < |s'.cpus| && |s'.procs| == |s.procs|
    && Before(s', c) == Before(s, c) && Within(s', c) == Within(s, c)
  }

  lemma LessBudget(s: State, s': State, c: nat)
    requires Less(s, s', c)
    ensures Budget(s', c) < Budget(s, c)
  {
    var m := |s.procs| + 7;
    if Before(s', c) < Before(s, c) {
      var d := Before(s, c) - Before(s', c) - 1;
      assert Before(s, c) * m == Before(s', c) * m + d * m + m by {
        assert Before(s, c) == Before(s', c) + d + 1;
      }
      assert 0 <= d * m;
    }
  }

  lemma SchedulerSpends(s: State, step: Step, c: nat, s': State)
    requires Inv(s) && Next(s, step, s') && CpuOf(step) == Some(c) && s'.lock.Some? && InScheduler(s, c)
    requires s.lock == Some(c)
    ensures Less(s, s', c)
  {
    assert CpuOk(s, s.cpus[c]) && (Holding(s, c) <==> s.lock == Some(c));
    if s.cpus[c].proc.Some? {
      assert CurrentOk(s.cpus[c].sched, s.procs[s.cpus[c].proc.value]);
    }
  }

  lemma ProcessSpends(s: State, step: Step, c: nat, p: nat, s': State)
    requires Inv(s) && Next(s, step, s') && CpuOf(step) == Some(c) && s'.lock.Some? && Executes(s, c, p)
    requires s.lock == Some(c)
    ensures Less(s, s', c)
  {
    assert CpuOk(s, s.cpus[c]) && (Holding(s, c) <==> s.lock == Some(c));
    assert CurrentOk(s.cpus[c].sched, s.procs[p]);
    if step.Set? {
      SetCode(s, c, p, s');
    }
  }

  lemma SetCode(s: State, c: nat, p: nat, s': State)
    requires DoSet(s, c, p, s')
    ensures |s'.procs| == |s.procs| && s'.cpus == s.cpus && s'.procs[p].code.Switch?
  {
  }

  lemma HolderSpends(s: State, step: Step, c: nat, s': State)
    requires Inv(s) && Next(s, step, s') && CpuOf(step) == Some(c) && s.lock == Some(c) && s'.lock.Some?
    requires c < |s.cpus|
    ensures Less(s, s', c)
  {
    if s.cpus[c].on.None? {
      SchedulerSpends(s, step, c, s');
    } else {
      assert CpuOk(s, s.cpus[c]);
      ProcessSpends(s, step, c, s.cpus[c].on.value, s');
    }
  }

  /** While c holds the lock, the others do nothing that c is concerned with. */
  lemma OthersLeave(s: State, step: Step, c: nat, s': State)
    requires Inv(s) && Next(s, step, s') && CpuOf(step) != Some(c) && s.lock == Some(c) && c < |s.cpus|
    ensures Equal(s, s', c)
  {
    OthersMake(s, step, c, s');
    assert CpuOk(s, s.cpus[c]);
    if s.cpus[c].on.Some? {
      assert CurrentOk(s.cpus[c].sched, s.procs[s.cpus[c].on.value]);
    }
    MakeLeaves(s, step, c, s');
  }

  lemma MakeLeaves(s: State, step: Step, c: nat, s': State)
    requires Next(s, step, s') && (step.Stack? || step.Abandon?) && c < |s.cpus| && CpuOk(s, s.cpus[c])
    requires s.cpus[c].on.Some? ==> CurrentOk(s.cpus[c].sched, s.procs[s.cpus[c].on.value])
    ensures Equal(s, s', c)
  {
  }

  /** All that a CPU can do without ptable.lock is to make a process. */
  lemma OthersMake(s: State, step: Step, c: nat, s': State)
    requires Inv(s) && Next(s, step, s') && CpuOf(step) != Some(c) && s.lock == Some(c)
    ensures step.Stack? || step.Abandon?
  {
    if CpuOf(step).Some? && step.c < |s.cpus| {
      assert Holding(s, step.c) <==> s.lock == Some(step.c);
      assert CpuOk(s, s.cpus[step.c]);
    }
  }

  lemma SameTable(s: State, step: Step, s': State)
    requires Next(s, step, s')
    ensures |s'.procs| == |s.procs| && |s'.cpus| == |s.cpus|
  {
  }

  function StepsOf(steps: seq<Step>, c: nat): nat {
    if steps == [] then 0
    else StepsOf(steps[..|steps| - 1], c) + if CpuOf(steps[|steps| - 1]) == Some(c) then 1 else 0
  }

  /** What a step leaves of the budget of c. */
  ghost predicate Spends(s: State, step: Step, c: nat, s': State) {
    s.lock == Some(c) && s'.lock == Some(c) && c < |s.cpus| ==>
      && |s'.procs| == |s.procs| && |s'.cpus| == |s.cpus|
      && Budget(s', c) + (if CpuOf(step) == Some(c) then 1 else 0) <= Budget(s, c)
  }

  lemma StepSpends(s: State, step: Step, c: nat, s': State)
    requires Inv(s) && Next(s, step, s')
    ensures Spends(s, step, c, s')
  {
    SameTable(s, step, s');
    if s.lock == Some(c) && s'.lock == Some(c) && c < |s.cpus| {
      if CpuOf(step) == Some(c) {
        HolderSpends(s, step, c, s');
        LessSpends(s, step, c, s');
      } else {
        OthersLeave(s, step, c, s');
        EqualSpends(s, step, c, s');
      }
    }
  }

  lemma LessSpends(s: State, step: Step, c: nat, s': State)
    requires Less(s, s', c) && |s'.cpus| == |s.cpus|
    ensures Spends(s, step, c, s')
  {
    LessBudget(s, s', c);
  }

  lemma EqualSpends(s: State, step: Step, c: nat, s': State)
    requires Equal(s, s', c) && CpuOf(step) != Some(c) && |s'.cpus| == |s.cpus|
    ensures Spends(s, step, c, s')
  {
  }

  ghost predicate Spent(s: State, s': State, c: nat, n: nat) {
    && c < |s.cpus| && |s'.procs| == |s.procs| && |s'.cpus| == |s.cpus|
    && Budget(s', c) + n <= Budget(s, c)
  }

  lemma {:induction false} RunSpends(states: seq<State>, steps: seq<Step>, c: nat, i: nat, k: nat)
    requires i <= k < |states| == |steps| + 1 && c < |states[i].cpus|
    requires forall j :: i <= j < k ==> Spends(states[j], steps[j], c, states[j + 1])
    requires forall j :: i <= j <= k ==> states[j].lock == Some(c)
    ensures Spent(states[i], states[k], c, StepsOf(steps[i..k], c))
    decreases k
  {
    if i < k {
      var j := k - 1;
      RunSpends(states, steps, c, i, j);
      assert Spends(states[j], steps[j], c, states[j + 1]);
      assert steps[i..k] == steps[i..j] + [steps[j]];
    }
  }

  lemma Bounded(s: State, c: nat)
    requires c < |s.cpus|
    ensures Budget(s, c) <= |s.procs| * (|s.procs| + 7) + |s.procs| + 6
  {
    assert Before(s, c) * (|s.procs| + 7) <= |s.procs| * (|s.procs| + 7);
  }

  /** In every run a CPU that holds ptable.lock from i to k takes only so many steps in
      between, a number that depends on the size of the table alone. */
  lemma LockReleased(states: seq<State>, steps: seq<Step>, c: nat, i: nat, k: nat)
    requires IsRun(states, steps) && i <= k < |states| && c < |states[i].cpus|
    requires forall j :: i <= j <= k ==> states[j].lock == Some(c)
    ensures var n := |states[i].procs|; StepsOf(steps[i..k], c) <= n * (n + 7) + n + 6
  {
    forall j | i <= j < k
      ensures Spends(states[j], steps[j], c, states[j + 1])
    {
      assert Next(states[j], steps[j], states[j + 1]);
      RunInv(states, steps, j);
      StepSpends(states[j], steps[j], c, states[j + 1]);
    }
    RunSpends(states, steps, c, i, k);
    Bounded(states[i], c);
  }

  // ---------------------------------------------------------------- every slot has its turn

  function UpTo(n: nat): seq<nat> {
    seq(n, i => i)
  }

  /** The slots that the scheduler of c has looked at since it took ptable.lock. */
  ghost function Looked(states: seq<State>, steps: seq<Step>, c: nat, k: nat): seq<nat>
    requires k < |states| == |steps| + 1
  {
    if k == 0 || steps[k - 1] == ScanStep(c) then []
    else
      var before := Looked(states, steps, c, k - 1);
      var s := states[k - 1];
      if (steps[k - 1] == Skip(c) || steps[k - 1] == Choose(c)) && c < |s.cpus| && s.cpus[c].sched.Scan? then
        before + [s.cpus[c].sched.i]
      else before
  }

  /** How many slots the scheduler is past. */
  function Past(sched: Sched): nat {
    if sched.Open? then 0 else if sched.Scan? then sched.i else sched.i + 1
  }

  /** The scheduler of c goes on by one slot when it has looked at one. */
  ghost predicate Proceeds(s: State, step: Step, c: nat, s': State) {
    && |s'.procs| == |s.procs| && |s'.cpus| == |s.cpus|
    && (c < |s.cpus| && !s'.cpus[c].sched.Open? ==>
          && (step == ScanStep(c) ==> Past(s'.cpus[c].sched) == 0)
          && (step == Skip(c) || step == Choose(c) ==>
                s.cpus[c].sched.Scan? && Past(s'.cpus[c].sched) == s.cpus[c].sched.i + 1 <= |s.procs|)
          && (step != ScanStep(c) && step != Skip(c) && step != Choose(c) ==>
                !s.cpus[c].sched.Open? && Past(s'.cpus[c].sched) == Past(s.cpus[c].sched)))
  }

  lemma NextSlot(s: State, step: Step, c: nat, s': State)
    requires (c < |s.cpus| ==> CpuOk(s, s.cpus[c])) && Next(s, step, s')
    ensures Proceeds(s, step, c, s')
  {
    SameTable(s, step, s');
  }

  lemma {:induction false} LookedOn(states: seq<State>, steps: seq<Step>, c: nat, k: nat)
    requires k < |states| == |steps| + 1 && c < |states[k].cpus| && !states[k].cpus[c].sched.Open?
    requires forall j :: 0 <= j < k ==> Proceeds(states[j], steps[j], c, states[j + 1])
    requires forall d :: 0 <= d < |states[0].cpus| ==> states[0].cpus[d].sched.Open?
    ensures Past(states[k].cpus[c].sched) <= |states[k].procs|
    ensures Looked(states, steps, c, k) == UpTo(Past(states[k].cpus[c].sched))
  {
    if 0 < k {
      var j := k - 1;
      assert Proceeds(states[j], steps[j], c, states[j + 1]);
      if steps[j] != ScanStep(c) {
        LookedOn(states, steps, c, j);
      }
    }
  }

  lemma InTurn(states: seq<State>, steps: seq<Step>, c: nat, k: nat)
    requires IsRun(states, steps) && k < |states| && c < |states[k].cpus| && !states[k].cpus[c].sched.Open?
    ensures Past(states[k].cpus[c].sched) <= |states[k].procs|
    ensures Looked(states, steps, c, k) == UpTo(Past(states[k].cpus[c].sched))
  {
    forall j | 0 <= j < k
      ensures Proceeds(states[j], steps[j], c, states[j + 1])
    {
      assert Next(states[j], steps[j], states[j + 1]);
      RunInv(states, steps, j);
      NextSlot(states[j], steps[j], c, states[j + 1]);
    }
    LookedOn(states, steps, c, k);
  }

  /** In every run: when the scheduler of a CPU is through with the table it has looked at
      every slot, once and in order; */
  lemma EveryTurn(states: seq<State>, steps: seq<Step>, c: nat, k: nat)
    requires IsRun(states, steps) && k < |steps| && steps[k] == Done(c)
    ensures Looked(states, steps, c, k) == UpTo(|states[k].procs|)
  {
    assert Next(states[k], steps[k], states[k + 1]);
    InTurn(states, steps, c, k);
  }

  /** a process that it goes past was not RUNNABLE, and one that was is executed. */
  lemma TurnRuns(states: seq<State>, steps: seq<Step>, c: nat, k: nat, p: nat)
    requires IsRun(states, steps) && k < |steps| && c < |states[k].cpus| && p < |states[k].procs|
    ensures steps[k] == Skip(c) && states[k].cpus[c].sched == Scan(p) ==> states[k].procs[p].state != RUNNABLE
    ensures steps[k] == SwitchTo(c) ==>
      (Executes(states[k + 1], c, p) <==> Looked(states, steps, c, k) == UpTo(p + 1))
  {
    var s := states[k];
    assert Next(s, steps[k], states[k + 1]);
    if steps[k] == SwitchTo(c) {
      RunInv(states, steps, k);
      InTurn(states, steps, c, k);
      assert CpuOk(s, s.cpus[c]);
      assert |UpTo(p + 1)| == p + 1;
    }
  }
}
