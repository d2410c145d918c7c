/**
  proc.c: sleep(), wakeup() and kill().  The channel of a process, who wakes it, and
  what the fields killed and isthread remember.
*/
module Wakeups {
  import opened Options
  import opened Scheduler
  import Families

  // ---------------------------------------------------------------- channels

  /** The process is in sleep(), between giving up its CPU and coming back. */
  predicate Dozes(code: Code) {
    (code.Switch? || code.Off?) && (code.why.Sleeping? || code.why.InWait?)
  }

  /** What it sleeps on. */
  function SleepsOn(code: Code, p: nat): Chan {
    if !Dozes(code) then Nothing else if code.why.Sleeping? then code.why.chan else OfProc(p)
  }

  /** p->chan is set exactly while the process is in sleep(), and only such a process is
      SLEEPING.  A slot that is not in use has nothing in it. */
  predicate ChanOk(pr: Proc, p: nat) {
    if pr.state == UNUSED || pr.state == EMBRYO then
      pr.chan == Nothing && pr.parent.None? && (pr.state == UNUSED ==> pr.kstack.None? && pr.maker.None?)
    else
      && pr.chan == SleepsOn(pr.code, p) && (pr.state == SLEEPING ==> Dozes(pr.code))
      && (pr.state == ZOMBIE ==> !Dozes(pr.code))
  }

  ghost predicate ChansOk(s: State) {
    forall p :: 0 <= p < |s.procs| ==> ChanOk(s.procs[p], p)
  }

  lemma SameSize(s: State, step: Step, s': State)
    requires Next(s, step, s')
    ensures |s'.procs| == |s.procs| && s'.initproc == s.initproc
  {
  }

  lemma QuietChan(s: State, step: Step, s': State, p: nat)
    requires Inv(s) && Next(s, step, s') && IsQuiet(step) && p < |s.procs| == |s'.procs| && ChanOk(s.procs[p], p)
    ensures ChanOk(s'.procs[p], p)
  {
    Families.QuietOthers(s, step, s', p);
    if s'.procs[p] != s.procs[p] && !step.SwitchFrom? {
      Families.ExecutorLives(s, step.c, p);
    }
  }

  lemma SetChan(s: State, c: nat, q: nat, s': State, p: nat)
    requires Inv(s) && DoSet(s, c, q, s') && p < |s.procs| == |s'.procs| && ChanOk(s.procs[p], p)
    ensures ChanOk(s'.procs[p], p)
  {
    Families.ExecutorLives(s, c, q);
    Families.BequeathKeeps(s.procs, q, s.initproc, p);
    Families.BequeathParents(s.procs, q, s.initproc, p);
    BequeathSoft(s.procs, q, s.initproc, p);
    BequeathMaker(s.procs, q, s.initproc, p);
  }

  lemma BequeathMaker(procs: seq<Proc>, p: nat, init: nat, i: nat)
    requires p < |procs| && i < |procs|
    ensures Bequeath(procs, p, init)[i].maker == procs[i].maker
  {
  }

  lemma ReapChan(s: State, c: nat, q: nat, s': State, p: nat)
    requires Inv(s) && DoReap(s, c, q, s') && p < |s.procs| == |s'.procs| && ChanOk(s.procs[p], p)
    ensures ChanOk(s'.procs[p], p)
  {
    Families.ExecutorLives(s, c, q);
  }

  lemma OtherChan(s: State, step: Step, s': State, p: nat)
    requires Inv(s) && Next(s, step, s') && !IsQuiet(step) && !step.Set? && !step.Reap?
    requires p < |s.procs| == |s'.procs| && ChanOk(s.procs[p], p)
    ensures ChanOk(s'.procs[p], p)
  {
    if step.Mark? {
      assert CpuOk(s, s.cpus[step.c]) && CurrentOk(s.cpus[step.c].sched, s.procs[s.cpus[step.c].sched.i]);
    }
  }

  lemma StepKeepsChans(s: State, step: Step, s': State)
    requires Inv(s) && ChansOk(s) && Next(s, step, s')
    ensures ChansOk(s')
  {
    SameSize(s, step, s');
    forall p | 0 <= p < |s'.procs|
      ensures ChanOk(s'.procs[p], p)
    {
      assert ChanOk(s.procs[p], p);
      if IsQuiet(step) {
        QuietChan(s, step, s', p);
      } else if step.Set? {
        SetChan(s, step.c, step.p, s', p);
      } else if step.Reap? {
        ReapChan(s, step.c, step.p, s', p);
      } else {
        OtherChan(s, step, s', p);
      }
    }
  }

  /** In every state of every run the channels are right. */
  lemma RunChans(states: seq<State>, steps: seq<Step>, i: nat)
    requires IsRun(states, steps) && i < |states|
    ensures ChansOk(states[i])
  {
    InitChans(states[0]);
    forall j | 0 <= j < i
      ensures KeepsChans(states[j], states[j + 1])
    {
      NextChans(states, steps, j);
    }
    ChansSince(states, i);
  }

  ghost predicate KeepsChans(s: State, s': State) {
    ChansOk(s) ==> ChansOk(s')
  }

  lemma {:induction false} ChansSince(states: seq<State>, i: nat)
    requires i < |states| && ChansOk(states[0]) && forall j :: 0 <= j < i ==> KeepsChans(states[j], states[j + 1])
    ensures ChansOk(states[i])
  {
    if 0 < i {
      var j := i - 1;
      ChansSince(states, j);
      assert KeepsChans(states[j], states[j + 1]);
    }
  }

  lemma NextChans(states: seq<State>, steps: seq<Step>, i: nat)
    requires IsRun(states, steps) && i < |steps|
    ensures KeepsChans(states[i], states[i + 1])
  {
    RunInv(states, steps, i);
    assert Next(states[i], steps[i], states[i + 1]);
    if ChansOk(states[i]) {
      StepKeepsChans(states[i], steps[i], states[i + 1]);
    }
  }

  lemma InitChans(s: State)
    requires Init(s)
    ensures ChansOk(s)
  {
    forall p | 0 <= p < |s.procs|
      ensures ChanOk(s.procs[p], p)
    {
      assert Blank(s.procs[p]);
    }
  }

  // ---------------------------------------------------------------- who wakes a process

  /** Process p is asleep for this reason. */
  predicate Asleep(s: State, p: nat, why: Why) {
    && p < |s.procs| && s.procs[p].state == SLEEPING
    && (s.procs[p].code == Switch(why) || s.procs[p].code == Off(why)) && Dozes(s.procs[p].code)
  }

  function ChanFor(why: Why, p: nat): Chan {
    if why.Sleeping? then why.chan else OfProc(p)
  }

  /** exit() of q wakes up the channel of its parent, and that of init if it leaves it a
      zombie. */
  ghost predicate ExitWakes(s: State, q: nat, chan: Chan) {
    && q < |s.procs| && s.procs[q].code == Crit(Exiting)
    && ((s.procs[q].parent.Some? && chan == OfProc(s.procs[q].parent.value)) ||
        (chan == OfProc(s.initproc) &&
         exists i :: 0 <= i < |s.procs| && s.procs[i].parent == Some(q) && s.procs[i].state == ZOMBIE))
  }

  /** The steps that wake p when it sleeps on the channel. */
  ghost predicate Rouses(s: State, step: Step, p: nat, chan: Chan) {
    step == Wakeup(chan) || step == Kill(p) || (step.Set? && ExitWakes(s, step.p, chan))
  }

  lemma QuietAsleep(s: State, step: Step, s': State, p: nat, why: Why)
    requires Inv(s) && Next(s, step, s') && IsQuiet(step) && p < |s.procs| == |s'.procs| && Asleep(s, p, why)
    ensures Asleep(s', p, why)
  {
    Families.QuietOthers(s, step, s', p);
    if s'.procs[p] != s.procs[p] && !step.SwitchFrom? {
      Families.ExecutorLives(s, step.c, p);
    }
  }

  lemma SetAsleep(s: State, c: nat, q: nat, s': State, p: nat, why: Why)
    requires Inv(s) && DoSet(s, c, q, s') && p < |s.procs| == |s'.procs| && Asleep(s, p, why)
    requires s.procs[p].chan == ChanFor(why, p)
    ensures Asleep(s', p, why) <==> !ExitWakes(s, q, ChanFor(why, p))
  {
    Families.ExecutorLives(s, c, q);
    Families.BequeathKeeps(s.procs, q, s.initproc, p);
    if s.procs[q].code.why.Exiting? {
      BequeathRouses(s, q, p);
    }
  }

  lemma BequeathRouses(s: State, q: nat, p: nat)
    requires q < |s.procs| && p < |s.procs| && s.procs[p].state == SLEEPING && s.procs[q].code == Crit(Exiting)
    ensures Bequeath(s.procs, q, s.initproc)[p].state == SLEEPING <==> !ExitWakes(s, q, s.procs[p].chan)
  {
    var procs := s.procs;
    var woken := if procs[q].parent.Some? then Wake(procs, OfProc(procs[q].parent.value)) else procs;
    if LeftZombie(woken, q) {
      var i :| 0 <= i < |woken| && woken[i].parent == Some(q) && woken[i].state == ZOMBIE;
      assert procs[i].parent == Some(q) && procs[i].state == ZOMBIE;
    }
    if i :| 0 <= i < |procs| && procs[i].parent == Some(q) && procs[i].state == ZOMBIE {
      assert woken[i] == procs[i];
    }
  }

  lemma OtherAsleep(s: State, step: Step, s': State, p: nat, why: Why)
    requires Inv(s) && Next(s, step, s') && !IsQuiet(step) && !step.Set?
    requires p < |s.procs| == |s'.procs| && Asleep(s, p, why) && s.procs[p].chan == ChanFor(why, p)
    ensures Asleep(s', p, why) <==> !Rouses(s, step, p, ChanFor(why, p))
  {
    if step.Mark? {
      assert CpuOk(s, s.cpus[step.c]) && CurrentOk(s.cpus[step.c].sched, s.procs[s.cpus[step.c].sched.i]);
    } else if step.Reap? {
      Families.ExecutorLives(s, step.c, step.p);
    }
  }

  /** A step wakes a process if and only if it rouses it. */
  lemma StepAsleep(s: State, step: Step, s': State, p: nat, why: Why)
    requires Inv(s) && ChansOk(s) && Next(s, step, s') && Asleep(s, p, why)
    ensures p < |s'.procs| && (Asleep(s', p, why) <==> !Rouses(s, step, p, ChanFor(why, p)))
  {
    SameSize(s, step, s');
    assert ChanOk(s.procs[p], p);
    if IsQuiet(step) {
      QuietAsleep(s, step, s', p, why);
    } else if step.Set? {
      SetAsleep(s, step.c, step.p, s', p, why);
    } else {
      OtherAsleep(s, step, s', p, why);
    }
  }

  /** Whether p sleeps on, in a step. */
  ghost predicate SleepsOnward(s: State, step: Step, s': State, p: nat, why: Why) {
    Asleep(s, p, why) ==> (Asleep(s', p, why) <==> !Rouses(s, step, p, ChanFor(why, p)))
  }

  ghost predicate RousedIn(states: seq<State>, steps: seq<Step>, i: nat, k: nat, p: nat, chan: Chan) {
    exists j :: i <= j < k && j < |states| && j < |steps| && Rouses(states[j], steps[j], p, chan)
  }

  lemma {:induction false} Onward(states: seq<State>, steps: seq<Step>, i: nat, k: nat, p: nat, why: Why)
    requires i <= k < |states| == |steps| + 1 && Asleep(states[i], p, why)
    requires forall j :: i <= j < k ==> SleepsOnward(states[j], steps[j], states[j + 1], p, why)
    ensures Asleep(states[k], p, why) || RousedIn(states, steps, i, k, p, ChanFor(why, p))
    decreases k
  {
    if i < k {
      var j := k - 1;
      Onward(states, steps, i, j, p, why);
      assert SleepsOnward(states[j], steps[j], states[j + 1], p, why);
    }
  }

  /** In every run: a process that is asleep at i and not at k was woken in between, by
      a wakeup() of its channel, by the exit() of a child, or by kill(). */
  lemma SleepsUntilRoused(states: seq<State>, steps: seq<Step>, i: nat, k: nat, p: nat, why: Why)
    requires IsRun(states, steps) && i <= k < |states| && Asleep(states[i], p, why)
    ensures Asleep(states[k], p, why) || RousedIn(states, steps, i, k, p, ChanFor(why, p))
  {
    forall j | i <= j < k
      ensures SleepsOnward(states[j], steps[j], states[j + 1], p, why)
    {
      RunOnward(states, steps, j, p, why);
    }
    Onward(states, steps, i, k, p, why);
  }

  lemma RunOnward(states: seq<State>, steps: seq<Step>, j: nat, p: nat, why: Why)
    requires IsRun(states, steps) && j < |steps|
    ensures SleepsOnward(states[j], steps[j], states[j + 1], p, why)
  {
    assert Next(states[j], steps[j], states[j + 1]);
    RunInv(states, steps, j);
    RunChans(states, steps, j);
    if Asleep(states[j], p, why) {
      StepAsleep(states[j], steps[j], states[j + 1], p, why);
    }
  }

  predicate IsSleep(why: Why) {
    why.Sleeping? || why.InWait?
  }

  /** sleep() puts the process to sleep, */
  lemma FallsAsleep(states: seq<State>, steps: seq<Step>, i: nat, c: nat, p: nat, why: Why)
    requires IsRun(states, steps) && i < |steps| && steps[i] == Set(c, p)
    requires p < |states[i].procs| && states[i].procs[p].code == Crit(why) && IsSleep(why)
    ensures Asleep(states[i + 1], p, why)
  {
    assert Next(states[i], steps[i], states[i + 1]);
  }

  lemma ComesBack(s: State, c: nat, p: nat, why: Why)
    requires Inv(s) && Executes(s, c, p) && s.procs[p].code == Off(why)
    ensures !Asleep(s, p, why)
  {
    Families.ExecutorLives(s, c, p);
  }

  /** and returns only after somebody has woken it since. */
  lemma SleepReturns(states: seq<State>, steps: seq<Step>, i: nat, c: nat, p: nat, why: Why, k: nat, d: nat)
    requires IsRun(states, steps) && i < k < |states| && steps[i] == Set(c, p)
    requires p < |states[i].procs| && states[i].procs[p].code == Crit(why) && IsSleep(why)
    requires Executes(states[k], d, p) && states[k].procs[p].code == Off(why)
    ensures RousedIn(states, steps, i + 1, k, p, ChanFor(why, p))
  {
    FallsAsleep(states, steps, i, c, p, why);
    SleepsUntilRoused(states, steps, i + 1, k, p, why);
    RunInv(states, steps, k);
    ComesBack(states[k], d, p, why);
  }

  /** wakeup() leaves nobody asleep on the channel, and everybody else as it was. */
  lemma WakesAll(states: seq<State>, steps: seq<Step>, i: nat, chan: Chan, p: nat, why: Why)
    requires IsRun(states, steps) && i < |steps| && steps[i] == Wakeup(chan)
    ensures Asleep(states[i + 1], p, why) <==> Asleep(states[i], p, why) && ChanFor(why, p) != chan
    ensures Asleep(states[i], p, why) && ChanFor(why, p) == chan ==> states[i + 1].procs[p].state == RUNNABLE
  {
    assert Next(states[i], steps[i], states[i + 1]);
    RunChans(states, steps, i);
    if p < |states[i].procs| {
      assert ChanOk(states[i].procs[p], p);
    }
  }

  // ---------------------------------------------------------------- killed

  /** wait() or thread_join() frees slot p. */
  predicate Frees(s: State, step: Step, p: nat) {
    step.Reap? && step.p < |s.procs| && s.procs[step.p].code.Reaping? && s.procs[step.p].code.i == p
  }

  /** Slot p was killed, and not freed since. */
  ghost predicate KilledSince(states: seq<State>, steps: seq<Step>, k: nat, p: nat)
    requires k < |states| == |steps| + 1
  {
    exists j :: 0 <= j < k && steps[j] == Kill(p) && forall m :: j < m < k ==> !Frees(states[m], steps[m], p)
  }

  predicate KeepsKilled(s: State, step: Step, s': State, p: nat) {
    p < |s.procs| && p < |s'.procs| ==>
      s'.procs[p].killed == (step == Kill(p) || (s.procs[p].killed && !Frees(s, step, p)))
  }

  lemma StepKilled(s: State, step: Step, s': State, p: nat)
    requires Inv(s) && Next(s, step, s')
    ensures |s'.procs| == |s.procs| && KeepsKilled(s, step, s', p)
  {
    SameSize(s, step, s');
    if p < |s.procs| {
      if step.Set? {
        SetMarks(s, step.c, step.p, s', p);
      } else if step.Reap? {
        Families.ExecutorLives(s, step.c, step.p);
      } else if IsQuiet(step) {
        QuietMarks(s, step, s', p);
      } else {
        OtherMarks(s, step, s', p);
      }
    }
  }

  lemma QuietMarks(s: State, step: Step, s': State, p: nat)
    requires Next(s, step, s') && IsQuiet(step) && p < |s.procs| == |s'.procs|
    ensures s'.procs[p].killed == s.procs[p].killed && s'.procs[p].isthread == s.procs[p].isthread
  {
  }

  lemma SetMarks(s: State, c: nat, q: nat, s': State, p: nat)
    requires DoSet(s, c, q, s') && p < |s.procs| == |s'.procs|
    ensures s'.procs[p].killed == s.procs[p].killed && s'.procs[p].isthread == s.procs[p].isthread
  {
    Families.BequeathKeeps(s.procs, q, s.initproc, p);
  }

  lemma OtherMarks(s: State, step: Step, s': State, p: nat)
    requires Next(s, step, s') && !IsQuiet(step) && !step.Set? && !step.Reap? && p < |s.procs| == |s'.procs|
    ensures s'.procs[p].killed == (step == Kill(p) || s.procs[p].killed)
    ensures s'.procs[p].isthread == (StartsThread(step, p) || s.procs[p].isthread)
  {
  }

  predicate StartsThread(step: Step, p: nat) {
    step.Start? && step.q == p && step.thread
  }

  lemma {:induction false} KilledHistory(states: seq<State>, steps: seq<Step>, k: nat, p: nat)
    requires k < |states| == |steps| + 1 && (forall j :: 0 <= j < |states| ==> p < |states[j].procs|)
    requires !states[0].procs[p].killed
    requires forall j :: 0 <= j < k ==> KeepsKilled(states[j], steps[j], states[j + 1], p)
    ensures states[k].procs[p].killed <==> KilledSince(states, steps, k, p)
  {
    if 0 < k {
      var i := k - 1;
      KilledHistory(states, steps, i, p);
      assert KeepsKilled(states[i], steps[i], states[i + 1], p);
      if j :| 0 <= j < i && steps[j] == Kill(p) && forall m :: j < m < i ==> !Frees(states[m], steps[m], p) {
        if !Frees(states[i], steps[i], p) {
          assert forall m :: j < m < k ==> !Frees(states[m], steps[m], p);
        }
      }
      if j :| 0 <= j < k && steps[j] == Kill(p) && forall m :: j < m < k ==> !Frees(states[m], steps[m], p) {
        if j < i {
          assert KilledSince(states, steps, i, p);
          assert !Frees(states[i], steps[i], p);
        }
      }
    }
  }

  lemma {:induction false} SameSlots(states: seq<State>, steps: seq<Step>, i: nat)
    requires IsRun(states, steps) && i < |states|
    ensures |states[i].procs| == |states[0].procs|
  {
    if 0 < i {
      SameSlots(states, steps, i - 1);
      assert Next(states[i - 1], steps[i - 1], states[i]);
      SameSize(states[i - 1], steps[i - 1], states[i]);
    }
  }

  /** In every run a process is marked as killed if and only if kill() has named its slot
      since the slot was last freed. */
  lemma KilledIff(states: seq<State>, steps: seq<Step>, k: nat, p: nat)
    requires IsRun(states, steps) && k < |states| && p < |states[0].procs|
    ensures p < |states[k].procs| && (states[k].procs[p].killed <==> KilledSince(states, steps, k, p))
  {
    forall j | 0 <= j < |states|
      ensures p < |states[j].procs|
    {
      SameSlots(states, steps, j);
    }
    forall j | 0 <= j < k
      ensures KeepsKilled(states[j], steps[j], states[j + 1], p)
    {
      RunInv(states, steps, j);
      StepKilled(states[j], steps[j], states[j + 1], p);
    }
    assert Blank(states[0].procs[p]);
    KilledHistory(states, steps, k, p);
  }

  // ---------------------------------------------------------------- isthread

  predicate KeepsMark(s: State, step: Step, s': State, p: nat) {
    p < |s.procs| && p < |s'.procs| ==> s'.procs[p].isthread == (StartsThread(step, p) || s.procs[p].isthread)
  }

  lemma StepMark(s: State, step: Step, s': State, p: nat)
    requires Next(s, step, s')
    ensures KeepsMark(s, step, s', p)
  {
    SameSize(s, step, s');
    if p < |s.procs| {
      if step.Set? {
        SetMarks(s, step.c, step.p, s', p);
      } else if IsQuiet(step) {
        QuietMarks(s, step, s', p);
      } else if !step.Reap? {
        OtherMarks(s, step, s', p);
      }
    }
  }

  /** A thread was started in slot p. */
  ghost predicate HadThread(steps: seq<Step>, k: nat, p: nat) {
    exists j :: 0 <= j < k && j < |steps| && StartsThread(steps[j], p)
  }

  lemma {:induction false} MarkHistory(states: seq<State>, steps: seq<Step>, k: nat, p: nat)
    requires k < |states| == |steps| + 1 && (forall j :: 0 <= j < |states| ==> p < |states[j].procs|)
    requires !states[0].procs[p].isthread
    requires forall j :: 0 <= j < k ==> KeepsMark(states[j], steps[j], states[j + 1], p)
    ensures states[k].procs[p].isthread <==> HadThread(steps, k, p)
  {
    if 0 < k {
      var i := k - 1;
      MarkHistory(states, steps, i, p);
      assert KeepsMark(states[i], steps[i], states[i + 1], p);
    }
  }

  /** In every run a process is marked as a thread if and only if there ever was a thread
      in its slot: the mark is not taken away when the slot is freed. */
  lemma ThreadIff(states: seq<State>, steps: seq<Step>, k: nat, p: nat)
    requires IsRun(states, steps) && k < |states| && p < |states[0].procs|
    ensures p < |states[k].procs| && (states[k].procs[p].isthread <==> HadThread(steps, k, p))
  {
    forall j | 0 <= j < |states|
      ensures p < |states[j].procs|
    {
      SameSlots(states, steps, j);
    }
    forall j | 0 <= j < k
      ensures KeepsMark(states[j], steps[j], states[j + 1], p)
    {
      assert Next(states[j], steps[j], states[j + 1]);
      StepMark(states[j], steps[j], states[j + 1], p);
    }
    assert Blank(states[0].procs[p]);
    MarkHistory(states, steps, k, p);
  }

  /** So wait() takes the process that fork() has made for a child of its caller if and
      only if no thread was ever in the slot. */
  lemma ForkedIsChild(states: seq<State>, steps: seq<Step>, i: nat, c: nat, p: nat, q: nat)
    requires IsRun(states, steps) && i < |steps| && steps[i] == Start(c, p, q, false)
    ensures q < |states[i + 1].procs| && (Mine(states[i + 1], p, q, false) <==> !HadThread(steps, i, q))
  {
    assert Next(states[i], steps[i], states[i + 1]);
    SameSlots(states, steps, i);
    ThreadIff(states, steps, i, q);
  }
}
