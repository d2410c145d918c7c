/**
  proc.c: a run in which wait() returns -1 to a process that has a child.  thread_join()
  frees the slot of a thread and leaves its isthread set; the next fork() gets the slot.
*/
module LostChild {
  import opened Options
  import opened Scheduler

  datatype Run = Run(states: seq<State>, steps: seq<Step>)

  ghost predicate At(r: Run, s: State) {
    IsRun(r.states, r.steps) && r.states[|r.steps|] == s
  }

  lemma Go(r: Run, s: State, step: Step, s': State) returns (r': Run)
    requires At(r, s) && Next(s, step, s')
    ensures At(r', s') && r'.steps == r.steps + [step]
  {
    r' := Run(r.states + [s'], r.steps + [step]);
    forall i | 0 <= i < |r'.steps|
      ensures Next(r'.states[i], r'.steps[i], r'.states[i + 1])
    {
      if i < |r.steps| {
        assert Next(r.states[i], r.steps[i], r.states[i + 1]);
      }
    }
  }

  /** One CPU, init and one more slot. */
  function World(init: Proc, other: Proc, cpu: Cpu, locked: bool): State {
    State([init, other], [cpu], if locked then Some(0) else None, 0)
  }

  function Init0(state: PState, code: Code): Proc {
    Proc(state, Some(1), None, false, Nothing, false, code, None)
  }

  /** The other slot while it is not in use, while init fills it, and while a process is in it. */
  function Unused(thread: bool, code: Code): Proc {
    Proc(UNUSED, None, None, thread, Nothing, false, code, None)
  }

  function Embryo(thread: bool, stack: Option<nat>, code: Code): Proc {
    Proc(EMBRYO, stack, None, thread, Nothing, false, code, Some(0))
  }

  function Child(state: PState, code: Code): Proc {
    Proc(state, Some(2), Some(0), true, Nothing, false, code, None)
  }

  const OPEN: Cpu := Cpu(Open, None, None)

  function On(p: nat): Cpu {
    Cpu(Away(p), Some(p), Some(p))
  }

  /** The scheduler, at slot p, runs the process in it. */
  lemma Switches(r: Run, s: State, p: nat) returns (r': Run)
    requires At(r, s) && |s.procs| == 2 && |s.cpus| == 1 && p < 2 && s.procs[p].state == RUNNABLE
    requires s.cpus[0] == Cpu(Scan(p), None, None) && s.lock == Some(0) && s.procs[p].chan == Nothing
    requires s.procs[p].code == Forkret || s.procs[p].code == Off(Yielding)
    ensures At(r', State(s.procs[p := s.procs[p].(state := RUNNING, code := Running)], [On(p)], None, s.initproc))
  {
    var s1 := s.(cpus := [Cpu(Chosen(p), None, Some(p))]);
    var s2 := s1.(cpus := [Cpu(Marked(p), None, Some(p))], procs := s.procs[p := s.procs[p].(state := RUNNING)]);
    var s3 := s2.(cpus := [On(p)]);
    var s4 := State(s.procs[p := s.procs[p].(state := RUNNING, code := Running)], [On(p)], None, s.initproc);
    r' := Go(r, s, Choose(0), s1);
    r' := Go(r', s1, Mark(0), s2);
    r' := Go(r', s2, SwitchTo(0), s3);
    r' := Go(r', s3, Release(0, p), s4);
  }

  /** init and the child as they are when init is in user mode. */
  const RUNNING0: Proc := Init0(RUNNING, Running)
  const READY: Proc := Child(RUNNABLE, Forkret)
  const GONE: Proc := Child(ZOMBIE, Off(Exiting))
  const YIELDED: Proc := Init0(RUNNABLE, Off(Yielding))

  lemma Allocates(r: Run, was: bool, code: Code) returns (r': Run)
    requires At(r, World(RUNNING0, Unused(was, code), On(0), false))
    ensures At(r', World(RUNNING0, Embryo(was, Some(2), Forkret), On(0), false))
  {
    var s1 := World(RUNNING0, Embryo(was, None, code), On(0), false);
    r' := Go(r, World(RUNNING0, Unused(was, code), On(0), false), Alloc(0, 0, 1), s1);
    r' := Go(r', s1, Stack(0, 0, 1, 2), World(RUNNING0, Embryo(was, Some(2), Forkret), On(0), false));
  }

  /** fork() or thread_create() of init. */
  lemma Makes(r: Run, thread: bool, was: bool, code: Code) returns (r': Run)
    requires At(r, World(RUNNING0, Unused(was, code), On(0), false)) && (was || thread)
    ensures At(r', World(RUNNING0, READY, On(0), false)) && r'.steps != []
    ensures r'.steps[|r'.steps| - 1] == Start(0, 0, 1, thread)
  {
    r' := Allocates(r, was, code);
    var s := World(RUNNING0, Embryo(was, Some(2), Forkret), On(0), false);
    r' := Go(r', s, Start(0, 0, 1, thread), World(RUNNING0, READY, On(0), false));
  }

  lemma Yields(r: Run) returns (r': Run)
    requires At(r, World(RUNNING0, READY, On(0), false))
    ensures At(r', World(Init0(RUNNABLE, Switch(Yielding)), READY, On(0), true))
  {
    var s1 := World(Init0(RUNNING, Crit(Yielding)), READY, On(0), true);
    r' := Go(r, World(RUNNING0, READY, On(0), false), Enter(0, 0, Yielding), s1);
    r' := Go(r', s1, Set(0, 0), World(Init0(RUNNABLE, Switch(Yielding)), READY, On(0), true));
  }

  lemma ThreadRuns(r: Run) returns (r': Run)
    requires At(r, World(Init0(RUNNABLE, Switch(Yielding)), READY, On(0), true))
    ensures At(r', World(YIELDED, Child(RUNNING, Running), On(1), false))
  {
    var s := World(YIELDED, READY, Cpu(Scan(1), None, None), true);
    r' := Go(r, World(Init0(RUNNABLE, Switch(Yielding)), READY, On(0), true), SwitchFrom(0, 0), s);
    r' := Switches(r', s, 1);
  }

  lemma ThreadExits(r: Run) returns (r': Run)
    requires At(r, World(YIELDED, Child(RUNNING, Running), On(1), false))
    ensures At(r', World(YIELDED, Child(ZOMBIE, Switch(Exiting)), On(1), true))
  {
    var s1 := World(YIELDED, Child(RUNNING, Crit(Exiting)), On(1), true);
    r' := Go(r, World(YIELDED, Child(RUNNING, Running), On(1), false), Enter(0, 1, Exiting), s1);
    r' := Go(r', s1, Set(0, 1), World(YIELDED, Child(ZOMBIE, Switch(Exiting)), On(1), true));
  }

  lemma SchedulerEnds(r: Run) returns (r': Run)
    requires At(r, World(YIELDED, Child(ZOMBIE, Switch(Exiting)), On(1), true))
    ensures At(r', World(YIELDED, GONE, OPEN, false))
  {
    var s1 := World(YIELDED, GONE, Cpu(Scan(2), None, None), true);
    r' := Go(r, World(YIELDED, Child(ZOMBIE, Switch(Exiting)), On(1), true), SwitchFrom(0, 1), s1);
    r' := Go(r', s1, Done(0), World(YIELDED, GONE, OPEN, false));
  }

  lemma InitRuns(r: Run) returns (r': Run)
    requires At(r, World(YIELDED, GONE, OPEN, false))
    ensures At(r', World(RUNNING0, GONE, On(0), false))
  {
    var s := World(YIELDED, GONE, Cpu(Scan(0), None, None), true);
    r' := Go(r, World(YIELDED, GONE, OPEN, false), ScanStep(0), s);
    r' := Switches(r', s, 0);
  }

  lemma Looks(r: Run, child: Proc, threads: bool) returns (r': Run)
    requires At(r, World(RUNNING0, child, On(0), false))
    ensures At(r', World(Init0(RUNNING, Reaping(1, false, threads)), child, On(0), true))
    ensures r'.steps == r.steps + [Wait(0, 0, threads), Pass(0, 0)]
  {
    var s1 := World(Init0(RUNNING, Reaping(0, false, threads)), child, On(0), true);
    r' := Go(r, World(RUNNING0, child, On(0), false), Wait(0, 0, threads), s1);
    r' := Go(r', s1, Pass(0, 0), World(Init0(RUNNING, Reaping(1, false, threads)), child, On(0), true));
  }

  /** thread_join() of init. */
  lemma Joins(r: Run) returns (r': Run)
    requires At(r, World(RUNNING0, GONE, On(0), false))
    ensures At(r', World(RUNNING0, Unused(true, Off(Exiting)), On(0), false))
  {
    r' := Looks(r, GONE, true);
    var s := World(Init0(RUNNING, Reaping(1, false, true)), GONE, On(0), true);
    r' := Go(r', s, Reap(0, 0), World(RUNNING0, Unused(true, Off(Exiting)), On(0), false));
  }

  /** wait() of init, which has a child. */
  lemma Waits(r: Run) returns (r': Run)
    requires At(r, World(RUNNING0, READY, On(0), false))
    ensures At(r', World(RUNNING0, READY, On(0), false))
    ensures r'.steps == r.steps + [Wait(0, 0, false), Pass(0, 0), Pass(0, 0), GiveUp(0, 0)]
  {
    r' := Looks(r, READY, false);
    var s1 := World(Init0(RUNNING, Reaping(1, false, false)), READY, On(0), true);
    var s2 := World(Init0(RUNNING, Reaping(2, false, false)), READY, On(0), true);
    r' := Go(r', s1, Pass(0, 0), s2);
    r' := Go(r', s2, GiveUp(0, 0), World(RUNNING0, READY, On(0), false));
  }

  lemma Boots() returns (r: Run)
    ensures At(r, World(RUNNING0, Unused(false, Forkret), On(0), false))
  {
    var s0 := World(Init0(RUNNABLE, Forkret), Unused(false, Forkret), OPEN, false);
    var s1 := World(Init0(RUNNABLE, Forkret), Unused(false, Forkret), Cpu(Scan(0), None, None), true);
    r := Go(Run([s0], []), s0, ScanStep(0), s1);
    r := Switches(r, s1, 0);
  }

  /** init makes a thread and joins it; it forks, nobody is killed, and wait() finds no
      child. */
  lemma WaitMisses() returns (r: Run)
    ensures IsRun(r.states, r.steps) && 5 <= |r.steps|
    ensures r.steps[|r.steps| - 5..] ==
      [Start(0, 0, 1, false), Wait(0, 0, false), Pass(0, 0), Pass(0, 0), GiveUp(0, 0)]
    ensures var s := r.states[|r.steps|];
      |s.procs| == 2 && s.procs[1].parent == Some(0) && s.procs[1].state == RUNNABLE && !s.procs[0].killed
  {
    r := Boots();
    r := Makes(r, true, false, Forkret);
    r := Yields(r);
    r := ThreadRuns(r);
    r := ThreadExits(r);
    r := SchedulerEnds(r);
    r := InitRuns(r);
    r := Joins(r);
    r := Makes(r, false, true, Off(Exiting));
    r := Waits(r);
  }
}
