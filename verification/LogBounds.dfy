/**
  What every run keeps whatever the size of the log area and of the cache and
  whatever the operations log: who may be inside commit(), how many operations are
  open, how far log_write() can get, and a header without duplicates.  The bound on
  reservations holds as long as no operation logs more than MAXOPBLOCKS blocks.
*/
module LogBounds {
  import opened Options
  import opened Sums
  import opened LogProtocol
  import opened LogSafety

  // ---------------------------------------------------------------- processes

  /** ProcInv, and begin_op() has admitted no more operations than the log has room for
      when it is empty. */
  ghost predicate OpsInv(s: State, w: Option<Pid>) {
    ProcInv(s, w) && s.outstanding * MAXOPBLOCKS <= LOGSIZE
  }

  lemma BeginOpKeepsOps(c: Config, s: State, w: Option<Pid>, p: Pid, s': State)
    requires OpsInv(s, w) && DoBeginOp(c, s, p, s')
    ensures OpsInv(s', w)
  {
    if s.committing || |s.lh| + (s.outstanding + 1) * MAXOPBLOCKS > LOGSIZE {
      OpsUnchanged(s.procs, p, Asleep);
    } else {
      assert InOps(s'.procs) == InOps(s.procs) + {p};
    }
  }

  lemma LogCheckKeepsOps(c: Config, s: State, w: Option<Pid>, p: Pid, s': State)
    requires OpsInv(s, w) && DoLogCheck(c, s, p, s')
    ensures OpsInv(s', w)
  {
    assert InOps(s'.procs) == InOps(s.procs);
  }

  lemma CrashKeepsOps(c: Config, s: State, p: Pid, s': State)
    requires DoCrash(c, s, p, s')
    ensures OpsInv(s', Some(p))
  {
    assert InOps(s'.procs) == {};
  }

  /** A worker takes its steps while no operation is open. */
  lemma WorkerAlone(c: Config, s: State, w: Option<Pid>, st: Step, s': State)
    requires ProcInv(s, w) && Next(c, s, st, s') && IsWorkerStep(st)
    ensures w == Some(st.p) && InOps(s.procs) == {} == InOps(s'.procs)
  {
    NoneInOp(s, w);
  }

  lemma WorkerStepsKeepOps(c: Config, s: State, w: Option<Pid>, st: Step, s': State)
    requires OpsInv(s, w) && Next(c, s, st, s') && IsWorkerStep(st)
    ensures OpsInv(s', NextWorker(s, w, st))
  {
    WorkerAlone(c, s, w, st, s');
  }

  lemma ClientStepsKeepOps(c: Config, s: State, w: Option<Pid>, st: Step, s': State)
    requires OpsInv(s, w) && Next(c, s, st, s') && !IsWorkerStep(st) && !IsCacheStep(st)
    ensures OpsInv(s', NextWorker(s, w, st))
  {
    match st
    case BeginOp(p) => BeginOpKeepsOps(c, s, w, p, s');
    case LogCheck(p) => LogCheckKeepsOps(c, s, w, p, s');
    case LogAppend(p, i) => LogAppendKeepsProcs(c, s, w, p, i, s');
    case EndOp(p) => EndOpKeepsProcs(c, s, w, p, s');
    case Crash(p) => CrashKeepsOps(c, s, p, s');
  }

  lemma StepKeepsOps(c: Config, s: State, w: Option<Pid>, st: Step, s': State)
    requires OpsInv(s, w) && Next(c, s, st, s')
    ensures OpsInv(s', NextWorker(s, w, st))
  {
    if IsWorkerStep(st) {
      WorkerStepsKeepOps(c, s, w, st, s');
    } else if IsCacheStep(st) {
      CacheStepFrame(c, s, st, s');
    } else {
      ClientStepsKeepOps(c, s, w, st, s');
    }
  }

  lemma InitOps(c: Config, s: State) returns (w: Option<Pid>)
    requires Init(c, s)
    ensures OpsInv(s, w) && w.Some? && w.value in s.procs && DoCrash(c, s, w.value, s)
  {
    var p, nbuf: nat, pids :| p in pids && s == Booting(s.disk, s.committed, nbuf, pids, p);
    CrashKeepsOps(c, s, p, s);
    w := Some(p);
  }

  lemma {:induction false} RunKeepsOps(c: Config, states: seq<State>, steps: seq<Step>, i: nat) returns (w: Option<Pid>)
    requires IsRun(c, states, steps) && i <= |steps|
    ensures OpsInv(states[i], w)
  {
    if i == 0 {
      w := InitOps(c, states[0]);
    } else {
      var v := RunKeepsOps(c, states, steps, i - 1);
      StepKeepsOps(c, states[i - 1], v, steps[i - 1], states[i]);
      w := NextWorker(states[i - 1], v, steps[i - 1]);
    }
  }

  // ---------------------------------------------------------------- who sleeps in begin_op()

  /** begin_op() would put another operation to sleep. */
  ghost predicate Closed(s: State) {
    s.committing || |s.lh| + (s.outstanding + 1) * MAXOPBLOCKS > LOGSIZE
  }

  ghost predicate SleepInv(s: State) {
    (exists p :: p in s.procs && s.procs[p].Asleep?) ==> Closed(s)
  }

  lemma ClientStepsKeepSleep(c: Config, s: State, w: Option<Pid>, st: Step, s': State)
    requires ProcInv(s, w) && SleepInv(s) && Next(c, s, st, s') && !IsWorkerStep(st) && !IsCacheStep(st)
    ensures SleepInv(s')
  {
    if p :| p in s'.procs && s'.procs[p].Asleep? {
      assert p in s.procs && !st.Crash?;
      assert s.procs[p].Asleep? || (st.BeginOp? && st.p == p && s.procs[p].Idle?);
    }
  }

  lemma WorkerStepsKeepSleep(c: Config, s: State, w: Option<Pid>, st: Step, s': State)
    requires ProcInv(s, w) && SleepInv(s) && Next(c, s, st, s') && IsWorkerStep(st)
    ensures SleepInv(s')
  {
    if p :| p in s'.procs && s'.procs[p].Asleep? {
      assert p in s.procs && s.procs[p].Asleep?;
    }
  }

  /** Every step that makes room wakes those who sleep. */
  lemma StepKeepsSleep(c: Config, s: State, w: Option<Pid>, st: Step, s': State)
    requires ProcInv(s, w) && SleepInv(s) && Next(c, s, st, s')
    ensures SleepInv(s')
  {
    if IsWorkerStep(st) {
      WorkerStepsKeepSleep(c, s, w, st, s');
    } else if IsCacheStep(st) {
      CacheStepFrame(c, s, st, s');
    } else {
      ClientStepsKeepSleep(c, s, w, st, s');
    }
  }

  lemma {:induction false} RunKeepsSleep(c: Config, states: seq<State>, steps: seq<Step>, i: nat)
    requires IsRun(c, states, steps) && i <= |steps|
    ensures SleepInv(states[i])
  {
    if 0 < i {
      RunKeepsSleep(c, states, steps, i - 1);
      var w := RunKeepsOps(c, states, steps, i - 1);
      StepKeepsSleep(c, states[i - 1], w, steps[i - 1], states[i]);
    }
  }

  // ---------------------------------------------------------------- how far log_write() gets

  /** The operations behind the test of log_write(). */
  ghost function Passed(procs: map<Pid, Pc>): set<Pid> {
    set p | p in procs && procs[p].InOp? && procs[p].checked
  }

  /** Three operations at most pass the test, which leaves them two blocks past the
      last slot. */
  ghost predicate PassInv(c: Config, s: State) {
    0 < s.outstanding ==> |s.lh| + |Passed(s.procs)| <= c.size + 1
  }

  lemma PassedFew(procs: map<Pid, Pc>)
    ensures |Passed(procs)| <= |InOps(procs)|
  {
    assert InOps(procs) == Passed(procs) + (InOps(procs) - Passed(procs));
  }

  lemma LogCheckKeepsPassed(c: Config, s: State, w: Option<Pid>, p: Pid, s': State)
    requires OpsInv(s, w) && DoLogCheck(c, s, p, s')
    ensures PassInv(c, s')
  {
    LogCheckKeepsOps(c, s, w, p, s');
    PassedFew(s'.procs);
  }

  lemma LogAppendKeepsPassed(c: Config, s: State, w: Option<Pid>, p: Pid, i: nat, s': State)
    requires OpsInv(s, w) && PassInv(c, s) && DoLogAppend(c, s, p, i, s')
    ensures PassInv(c, s')
  {
    NotWorking(s, w, p);
    assert Passed(s.procs) == Passed(s'.procs) + {p};
  }

  lemma EndOpKeepsPassed(c: Config, s: State, w: Option<Pid>, p: Pid, s': State)
    requires OpsInv(s, w) && PassInv(c, s) && DoEndOp(c, s, p, s')
    ensures PassInv(c, s')
  {
    NotWorking(s, w, p);
    assert Passed(s'.procs) == Passed(s.procs) - {p};
  }

  lemma BeginOpKeepsPassed(c: Config, s: State, w: Option<Pid>, p: Pid, s': State)
    requires OpsInv(s, w) && PassInv(c, s) && DoBeginOp(c, s, p, s')
    ensures PassInv(c, s')
  {
    assert Passed(s'.procs) == Passed(s.procs);
    PassedFew(s.procs);
  }

  lemma StepKeepsPassed(c: Config, s: State, w: Option<Pid>, st: Step, s': State)
    requires OpsInv(s, w) && PassInv(c, s) && Next(c, s, st, s')
    ensures PassInv(c, s')
  {
    if IsWorkerStep(st) {
      NoneInOp(s, w);
    } else if IsCacheStep(st) {
      CacheStepFrame(c, s, st, s');
    } else {
      match st
      case BeginOp(p) => BeginOpKeepsPassed(c, s, w, p, s');
      case LogCheck(p) => LogCheckKeepsPassed(c, s, w, p, s');
      case LogAppend(p, i) => LogAppendKeepsPassed(c, s, w, p, i, s');
      case EndOp(p) => EndOpKeepsPassed(c, s, w, p, s');
      case Crash(p) =>
    }
  }

  lemma {:induction false} RunKeepsPassed(c: Config, states: seq<State>, steps: seq<Step>, i: nat)
    requires IsRun(c, states, steps) && i <= |steps|
    ensures PassInv(c, states[i])
  {
    if 0 < i {
      RunKeepsPassed(c, states, steps, i - 1);
      var w := RunKeepsOps(c, states, steps, i - 1);
      StepKeepsPassed(c, states[i - 1], w, steps[i - 1], states[i]);
    }
  }

  /** Process p is behind the size test of log_write(). */
  ghost predicate Behind(s: State, p: Pid) {
    p in s.procs && s.procs[p].InOp? && s.procs[p].checked
  }

  predicate Appends(st: Step, p: Pid) {
    st.LogAppend? && st.p == p
  }

  ghost predicate Retests(s: State, st: Step, s': State, p: Pid) {
    Behind(s', p) ==> st == LogCheck(p) || (Behind(s, p) && !Appends(st, p))
  }

  lemma StepRetests(c: Config, s: State, st: Step, s': State, p: Pid)
    requires Next(c, s, st, s')
    ensures Retests(s, st, s', p)
  {
    if IsCacheStep(st) {
      CacheStepFrame(c, s, st, s');
    }
  }

  /** p made the test at some step, and logged nothing from there to i. */
  ghost predicate TestedSince(steps: seq<Step>, i: nat, p: Pid) {
    exists j :: 0 <= j < i && j < |steps| && steps[j] == LogCheck(p) &&
      forall m :: j < m < i && m < |steps| ==> !Appends(steps[m], p)
  }

  lemma {:induction false} TestHistory(states: seq<State>, steps: seq<Step>, i: nat, p: Pid)
    requires i <= |steps| < |states| && !Behind(states[0], p) && Behind(states[i], p)
    requires forall j :: 0 <= j < i ==> Retests(states[j], steps[j], states[j + 1], p)
    ensures TestedSince(steps, i, p)
  {
    if 0 < i {
      var k := i - 1;
      assert Retests(states[k], steps[k], states[k + 1], p);
      if steps[k] != LogCheck(p) {
        TestHistory(states, steps, k, p);
        var j :| 0 <= j < k && steps[j] == LogCheck(p) && forall m :: j < m < k ==> !Appends(steps[m], p);
        assert forall m :: j < m < i ==> !Appends(steps[m], p);
      }
    }
  }

  /** In every run each block that an operation logs has its own size test before it. */
  lemma TestedOnce(c: Config, states: seq<State>, steps: seq<Step>, i: nat, p: Pid)
    requires IsRun(c, states, steps) && i < |steps| && Appends(steps[i], p)
    ensures TestedSince(steps, i, p)
  {
    forall j | 0 <= j < i
      ensures Retests(states[j], steps[j], states[j + 1], p)
    {
      StepRetests(c, states[j], steps[j], states[j + 1], p);
    }
    assert Next(c, states[i], steps[i], states[i + 1]);
    TestHistory(states, steps, i, p);
  }

  // ---------------------------------------------------------------- reservations

  ghost function Unspent(procs: map<Pid, Pc>): map<nat, nat> {
    map p | p in procs ::
      if procs[p].InOp? && procs[p].spent <= MAXOPBLOCKS then MAXOPBLOCKS - procs[p].spent else 0
  }

  /** No open operation has logged more than MAXOPBLOCKS blocks. */
  ghost predicate Thrifty(s: State) {
    forall p :: p in s.procs && s.procs[p].InOp? ==> s.procs[p].spent <= MAXOPBLOCKS
  }

  /** Logged blocks and unspent reservations together fit in the log. */
  ghost predicate Reserved(s: State) {
    |s.lh| + Sum(Unspent(s.procs)) <= LOGSIZE
  }

  /** The test in begin_op() leaves room for the whole reservation. */
  lemma AdmitKeepsBudget(procs: map<Pid, Pc>, p: Pid, outstanding: nat)
    requires p in procs && !procs[p].InOp? && outstanding == |InOps(procs)|
    ensures Sum(Unspent(procs[p := InOp(0, false)])) <= MAXOPBLOCKS * outstanding + MAXOPBLOCKS
  {
    var m := Unspent(procs);
    SumAtMost(m, InOps(procs), MAXOPBLOCKS, outstanding);
    SumUpdate(m, p, MAXOPBLOCKS);
    assert Unspent(procs[p := InOp(0, false)]) == m[p := MAXOPBLOCKS];
  }

  lemma SpendOne(procs: map<Pid, Pc>, p: Pid, checked: bool)
    requires p in procs && procs[p].InOp? && procs[p].spent < MAXOPBLOCKS
    ensures Sum(Unspent(procs[p := InOp(procs[p].spent + 1, checked)])) + 1 == Sum(Unspent(procs))
  {
    var m := Unspent(procs);
    SumUpdate(m, p, m[p] - 1);
    assert Unspent(procs[p := InOp(procs[p].spent + 1, checked)]) == m[p := m[p] - 1];
  }

  /** Changes of a process that leave its reservation alone. */
  lemma SameUnspent(procs: map<Pid, Pc>, p: Pid, pc: Pc)
    requires p in procs && (procs[p].InOp? <==> pc.InOp?) && (pc.InOp? ==> pc.spent == procs[p].spent)
    ensures Unspent(procs[p := pc]) == Unspent(procs)
  {
  }

  lemma WakeUnspent(procs: map<Pid, Pc>)
    ensures Unspent(WakeAll(procs)) == Unspent(procs)
  {
  }

  lemma LeaveOp(procs: map<Pid, Pc>, p: Pid, pc: Pc)
    requires p in procs && !pc.InOp?
    ensures Sum(Unspent(procs[p := pc])) <= Sum(Unspent(procs))
  {
    var m := Unspent(procs);
    SumUpdate(m, p, 0);
    assert Unspent(procs[p := pc]) == m[p := 0];
  }

  lemma LogAppendKeepsBudget(c: Config, s: State, p: Pid, i: nat, s': State)
    requires Reserved(s) && DoLogAppend(c, s, p, i, s') && Thrifty(s')
    ensures Reserved(s')
  {
    if s.cache[i].tag.value in s.lh {
      SameUnspent(s.procs, p, s.procs[p].(checked := false));
      assert s'.lh == s.lh;
    } else {
      assert s'.procs[p].spent <= MAXOPBLOCKS;
      SpendOne(s.procs, p, false);
      assert |s'.lh| == |s.lh| + 1;
    }
  }

  lemma BeginOpKeepsBudget(c: Config, s: State, w: Option<Pid>, p: Pid, s': State)
    requires ProcInv(s, w) && Reserved(s) && DoBeginOp(c, s, p, s')
    ensures Reserved(s')
  {
    if s.committing || |s.lh| + (s.outstanding + 1) * MAXOPBLOCKS > LOGSIZE {
      SameUnspent(s.procs, p, Asleep);
    } else {
      AdmitKeepsBudget(s.procs, p, s.outstanding);
    }
  }

  lemma EndOpKeepsBudget(c: Config, s: State, p: Pid, s': State)
    requires Reserved(s) && DoEndOp(c, s, p, s')
    ensures Reserved(s')
  {
    var after := if s.outstanding == 1 then s'.procs else s.procs[p := Idle];
    WakeUnspent(after);
    LeaveOp(s.procs, p, after[p]);
  }

  lemma WorkerStepsKeepBudget(c: Config, s: State, w: Option<Pid>, st: Step, s': State)
    requires ProcInv(s, w) && Reserved(s) && Next(c, s, st, s') && IsWorkerStep(st)
    ensures Reserved(s')
  {
    WorkerAlone(c, s, w, st, s');
    WorkerHeader(c, s, st, s');
    NothingReserved(s');
  }

  lemma WorkerHeader(c: Config, s: State, st: Step, s': State)
    requires Next(c, s, st, s') && IsWorkerStep(st)
    ensures |s'.lh| <= |s.lh| || |s'.lh| <= LOGSIZE
  {
  }

  lemma NothingReserved(s: State)
    requires InOps(s.procs) == {} && |s.lh| <= LOGSIZE
    ensures Reserved(s)
  {
    forall p | p in s.procs ensures !s.procs[p].InOp? {
      assert p !in InOps(s.procs);
    }
    SumAtMost(Unspent(s.procs), {}, 0, 0);
  }

  lemma StepKeepsBudget(c: Config, s: State, w: Option<Pid>, st: Step, s': State)
    requires ProcInv(s, w) && Reserved(s) && Next(c, s, st, s') && Thrifty(s')
    ensures Reserved(s')
  {
    if IsWorkerStep(st) {
      WorkerStepsKeepBudget(c, s, w, st, s');
    } else if IsCacheStep(st) {
      CacheStepFrame(c, s, st, s');
    } else {
      match st
      case BeginOp(p) => BeginOpKeepsBudget(c, s, w, p, s');
      case LogCheck(p) => SameUnspent(s.procs, p, s.procs[p].(checked := true));
      case LogAppend(p, i) => LogAppendKeepsBudget(c, s, p, i, s');
      case EndOp(p) => EndOpKeepsBudget(c, s, p, s');
      case Crash(p) => CrashKeepsBudget(c, s, p, s');
    }
  }

  lemma CrashKeepsBudget(c: Config, s: State, p: Pid, s': State)
    requires DoCrash(c, s, p, s')
    ensures Reserved(s')
  {
    CrashKeepsOps(c, s, p, s');
    assert InOps(s'.procs) == {};
    NothingReserved(s');
  }

  lemma {:induction false} RunKeepsBudget(c: Config, states: seq<State>, steps: seq<Step>, i: nat)
    requires IsRun(c, states, steps) && i <= |steps|
    requires forall j :: 0 <= j <= i ==> Thrifty(states[j])
    ensures Reserved(states[i])
  {
    if i == 0 {
      var w := InitOps(c, states[0]);
      CrashKeepsBudget(c, states[0], w.value, states[0]);
    } else {
      RunKeepsBudget(c, states, steps, i - 1);
      var w := RunKeepsOps(c, states, steps, i - 1);
      StepKeepsBudget(c, states[i - 1], w, steps[i - 1], states[i]);
    }
  }

  // ---------------------------------------------------------------- the header

  /** The headers on disk and in memory name home blocks without duplicates, and
      the one buffer that caches the header block has what is on disk. */
  ghost predicate HeaderInv(c: Config, s: State) {
    && c.start < |s.disk| && HeadOk(s.disk[c.start])
    && LhInv(c, Head(s.disk[c.start])) && LhInv(c, s.lh)
    && (forall i :: 0 <= i < |s.cache| && s.cache[i].valid && s.cache[i].tag == Some(c.start) ==>
          s.cache[i].data == s.disk[c.start])
    && (forall i, j :: 0 <= i < j < |s.cache| && s.cache[i].tag == Some(c.start) ==>
          s.cache[j].tag != Some(c.start))
  }

  lemma WorkerStepsKeepHeader(c: Config, s: State, st: Step, s': State)
    requires 0 < c.size && HeaderInv(c, s) && Next(c, s, st, s') && IsWorkerStep(st)
    ensures HeaderInv(c, s')
  {
    if st.InstallStep? {
      assert IsHome(c, s.lh[s.procs[st.p].phase.tail]);
    }
  }

  lemma CacheStepsKeepHeader(c: Config, s: State, st: Step, s': State)
    requires 0 < c.size && HeaderInv(c, s) && Next(c, s, st, s') && IsCacheStep(st)
    ensures HeaderInv(c, s')
  {
    CacheStepFrame(c, s, st, s');
  }

  lemma StepKeepsHeader(c: Config, s: State, st: Step, s': State)
    requires 0 < c.size && HeaderInv(c, s) && Next(c, s, st, s')
    ensures HeaderInv(c, s')
  {
    if IsWorkerStep(st) {
      WorkerStepsKeepHeader(c, s, st, s');
    } else if IsCacheStep(st) {
      CacheStepsKeepHeader(c, s, st, s');
    }
  }

  lemma {:induction false} RunKeepsHeader(c: Config, states: seq<State>, steps: seq<Step>, i: nat)
    requires 0 < c.size && IsRun(c, states, steps) && i <= |steps|
    ensures HeaderInv(c, states[i])
  {
    if 0 < i {
      RunKeepsHeader(c, states, steps, i - 1);
      StepKeepsHeader(c, states[i - 1], steps[i - 1], states[i]);
    }
  }
}
