/** What the log promises, for every run of the protocol. */
module LogTheorems {
  import opened Options
  import opened Sums
  import opened LogProtocol
  import opened LogSafety
  import opened LogBounds

  // ---------------------------------------------------------------- the logical content of a block

  ghost predicate Copy(s: State, i: int, b: int) {
    0 <= i < |s.cache| && s.cache[i].valid && s.cache[i].tag == Some(b)
  }

  /** x is the content of block b: cached data if there is a valid buffer, else the disk. */
  ghost predicate IsView(s: State, b: int, x: Block) {
    && 0 <= b < |s.disk|
    && (forall i :: Copy(s, i, b) ==> s.cache[i].data == x)
    && ((exists i :: Copy(s, i, b)) || s.disk[b] == x)
  }

  /** Each block has exactly one content: at most one buffer caches it. */
  lemma ViewExists(c: Config, s: State, w: Option<Pid>, b: int) returns (x: Block)
    requires Inv(c, s, w) && 0 <= b < |s.disk|
    ensures IsView(s, b, x)
    ensures forall y :: IsView(s, b, y) ==> y == x
  {
    if i :| Copy(s, i, b) {
      x := s.cache[i].data;
    } else {
      x := s.disk[b];
    }
  }

  /** A step that replaces buffer i and keeps the disk block b. */
  lemma ReplaceKeepsView(c: Config, s: State, w: Option<Pid>, i: nat, s': State, b: int, x: Block)
    requires CacheInv(c, s, w) && IsView(s, b, x)
    requires i < |s.cache| == |s'.cache| && s'.cache == s.cache[i := s'.cache[i]] && |s'.disk| == |s.disk|
    requires s'.disk[b] == s.disk[b]
    requires Copy(s', i, b) ==> s'.cache[i].data == x
    requires Copy(s, i, b) && !Copy(s', i, b) ==> s.disk[b] == x
    ensures IsView(s', b, x)
  {
    forall j | Copy(s', j, b) ensures s'.cache[j].data == x {
      assert j != i ==> Copy(s, j, b);
    }
    if j :| Copy(s, j, b) {
      assert j != i ==> Copy(s', j, b);
    }
  }

  lemma CacheStepKeepsView(c: Config, s: State, w: Option<Pid>, st: Step, s': State, b: int, x: Block)
    requires Inv(c, s, w) && Next(c, s, st, s') && IsCacheStep(st) && !st.Modify?
    requires IsView(s, b, x)
    ensures IsView(s', b, x)
  {
    assert BufInv(c, s, w, s.cache[st.i]);
    if st.Fill? && s.cache[st.i].tag == Some(b) {
      assert forall j :: !Copy(s, j, b);
    }
    assert Copy(s, st.i, b) ==> s.cache[st.i].data == x;
    ReplaceKeepsView(c, s, w, st.i, s', b, x);
  }

  /** The pinned copy of a block being installed equals its log copy. */
  lemma InstallsCached(c: Config, s: State, w: Option<Pid>, p: Pid, l: nat, d: nat, s': State)
    requires Inv(c, s, w) && DoInstall(c, s, p, l, d, s') && !Recovering(s, w)
    ensures s.cache[d].data == s.cache[l].data
  {
    var tail := s.procs[p].phase.tail;
    assert BufInv(c, s, w, s.cache[d]);
    assert s.lh[tail..][0] == s.lh[tail];
    assert s.cache[d].data == s.disk[Slot(c, tail)];
    assert BufInv(c, s, w, s.cache[l]);
    assert s.cache[l].tag.value !in Pending(s, w);
    NoneInOp(s, w);
  }

  lemma InstallKeepsView(c: Config, s: State, w: Option<Pid>, p: Pid, l: nat, d: nat, s': State, b: int, x: Block)
    requires Inv(c, s, w) && DoInstall(c, s, p, l, d, s') && !Recovering(s, w)
    requires IsHome(c, b) && IsView(s, b, x)
    ensures IsView(s', b, x)
  {
    InstallsCached(c, s, w, p, l, d, s');
    if b == s.lh[s.procs[p].phase.tail] {
      assert Copy(s, d, b) && Copy(s', d, b);
      assert forall j :: Copy(s', j, b) ==> j == d;
    } else {
      ReplaceKeepsView(c, s, w, d, s', b, x);
    }
  }

  lemma WriteStepKeepsView(c: Config, s: State, w: Option<Pid>, st: Step, s': State, b: int, x: Block)
    requires Inv(c, s, w) && Next(c, s, st, s') && IsHome(c, b) && IsView(s, b, x)
    requires st.WriteLogStep? || st.WriteHeadStep? || st.ClearStep?
    ensures IsView(s', b, x)
  {
    ReplaceKeepsView(c, s, w, if st.WriteLogStep? then st.to else st.h, s', b, x);
  }

  /** Caching, recycling, logging, commit and release leave the content of
      every home block alone: only a client's own write changes it. */
  lemma StepKeepsView(c: Config, s: State, w: Option<Pid>, st: Step, s': State, b: int, x: Block)
    requires Inv(c, s, w) && Next(c, s, st, s') && s.up && !st.Modify? && !st.Crash?
    requires IsHome(c, b) && IsView(s, b, x)
    ensures IsView(s', b, x)
  {
    if IsCacheStep(st) {
      CacheStepKeepsView(c, s, w, st, s', b, x);
    } else if st.InstallStep? {
      InstallKeepsView(c, s, w, st.p, st.l, st.d, s', b, x);
    } else if st.WriteLogStep? || st.WriteHeadStep? || st.ClearStep? {
      WriteStepKeepsView(c, s, w, st, s', b, x);
    } else if st.LogAppend? {
      ReplaceKeepsView(c, s, w, st.i, s', b, x);
    } else {
      assert s'.cache == s.cache && s'.disk == s.disk;
      assert forall i :: Copy(s', i, b) <==> Copy(s, i, b);
    }
  }

  // ---------------------------------------------------------------- crash atomicity

  /** The disk that a completed recover_from_log() leaves. */
  ghost function Recovered(c: Config, disk: seq<Block>): (r: seq<Block>)
    requires c.start < |disk| && HeadOk(disk[c.start]) && Slot(c, |Head(disk[c.start])|) <= |disk|
    ensures |r| == |disk|
  {
    Logged(c, disk, Head(disk[c.start]), disk)
  }

  lemma RecoveredIsCommitted(c: Config, disk: seq<Block>, committed: seq<Block>, b: int)
    requires CrashSafe(c, disk, committed) && IsHome(c, b)
    ensures Recovered(c, disk)[b] == committed[b]
  {
    var h := Head(disk[c.start]);
    if k :| 0 <= k < |h| && h[k] == b {
      LoggedAt(c, disk, h, disk, k);
    }
  }

  /** The header write commits exactly the content that the operations of the
      transaction see, on every home block and in one step. */
  lemma HeaderCommitsView(c: Config, s: State, w: Option<Pid>, p: Pid, h: nat, s': State, b: int)
    requires Inv(c, s, w) && DoWriteHead(c, s, p, h, s') && IsHome(c, b)
    ensures IsView(s, b, s'.committed[b])
  {
    NoneInOp(s, w);
    if k :| 0 <= k < |s.lh| && s.lh[k] == b {
      LoggedAt(c, s.disk, s.lh, s.committed, k);
      assert b in Pending(s, w);
      var i :| 0 <= i < |s.cache| && s.cache[i].tag == Some(b);
      assert BufInv(c, s, w, s.cache[i]);
      assert Copy(s, i, b);
      assert forall j :: Copy(s, j, b) ==> j == i;
    } else {
      forall i | Copy(s, i, b) ensures s.cache[i].data == s.committed[b] {
        assert BufInv(c, s, w, s.cache[i]);
      }
    }
  }

  lemma CommitsOnlyByHeader(c: Config, s: State, st: Step, s': State)
    requires Next(c, s, st, s') && !st.WriteHeadStep?
    ensures s'.committed == s.committed
  {
  }

  lemma {:induction false} CommittedStays(c: Config, states: seq<State>, steps: seq<Step>, i: nat, j: nat)
    requires IsRun(c, states, steps) && i <= j <= |steps|
    requires forall m :: i <= m < j ==> !steps[m].WriteHeadStep?
    ensures states[j].committed == states[i].committed
    decreases j - i
  {
    if i < j {
      CommittedStays(c, states, steps, i, j - 1);
      CommitsOnlyByHeader(c, states[j - 1], steps[j - 1], states[j]);
    }
  }

  /** Crash atomicity.  Let step k be a header write and none follow it before
      state j, whatever else happens in between: partial installs, crashes at
      any point, partial recoveries, new operations.  Then recovery from the
      disk of state j yields on every home block what was cached at step k:
      all of that transaction and nothing of a later one. */
  lemma RecoveryYieldsLastCommit(c: Config, states: seq<State>, steps: seq<Step>, k: nat, j: nat, b: int)
    requires Sized(c) && IsRun(c, states, steps) && Fits(c, |states[0].cache|) && k < j <= |steps| && IsHome(c, b)
    requires steps[k].WriteHeadStep?
    requires forall m :: k < m < j ==> !steps[m].WriteHeadStep?
    ensures CrashSafe(c, states[j].disk, states[j].committed)
    ensures IsView(states[k], b, Recovered(c, states[j].disk)[b])
  {
    var w := RunInv(c, states, steps, k);
    HeaderCommitsView(c, states[k], w, steps[k].p, steps[k].h, states[k + 1], b);
    CommittedStays(c, states, steps, k + 1, j);
    var w' := RunInv(c, states, steps, j);
    RecoveredIsCommitted(c, states[j].disk, states[j].committed, b);
  }

  /** Before the first header write, recovery yields the disk as mkfs left it. */
  lemma RecoveryYieldsInitial(c: Config, states: seq<State>, steps: seq<Step>, j: nat, b: int)
    requires Sized(c) && IsRun(c, states, steps) && Fits(c, |states[0].cache|) && j <= |steps| && IsHome(c, b)
    requires forall m :: 0 <= m < j ==> !steps[m].WriteHeadStep?
    ensures CrashSafe(c, states[j].disk, states[j].committed)
    ensures Recovered(c, states[j].disk)[b] == states[0].disk[b]
  {
    CommittedStays(c, states, steps, 0, j);
    var w' := RunInv(c, states, steps, j);
    RecoveredIsCommitted(c, states[j].disk, states[j].committed, b);
  }

  /** A recovery or a commit that has run to its end left every home block on
      disk at its committed content. */
  lemma QuiescentDisk(c: Config, states: seq<State>, steps: seq<Step>, i: nat, b: int)
    requires Sized(c) && IsRun(c, states, steps) && Fits(c, |states[0].cache|) && 0 < i <= |steps| && IsHome(c, b)
    requires steps[i - 1].ClearStep? || steps[i - 1].FinishStep?
    ensures |states[i].disk| == |states[i].committed| == c.nblocks
    ensures states[i].disk[b] == states[i].committed[b]
  {
    var w := RunInv(c, states, steps, i - 1);
    StepKeeps(c, states[i - 1], w, steps[i - 1], states[i]);
  }

  // ---------------------------------------------------------------- write-ahead, isolation, space

  /** Write-ahead rule: until its header is on disk, a transaction has changed
      no home block on disk; its blocks stay pinned in the cache. */
  lemma WriteAheadRule(c: Config, states: seq<State>, steps: seq<Step>, i: nat, b: int)
    requires Sized(c) && IsRun(c, states, steps) && Fits(c, |states[0].cache|) && i <= |steps| && b in states[i].lh
    requires forall p, t :: !At(states[i], p, Install(t))
    ensures 0 <= b < |states[i].disk| == |states[i].committed|
    ensures states[i].disk[b] == states[i].committed[b]
    ensures exists k :: Copy(states[i], k, b) && states[i].cache[k].dirty
  {
    var s := states[i];
    var w := RunInv(c, states, steps, i);
    assert forall p :: p in s.procs && s.procs[p].Worker? ==>
      (s.procs[p].phase.Install? ==> At(s, p, Install(s.procs[p].phase.tail)));
    assert b in Pending(s, w);
    var k :| 0 <= k < |s.cache| && s.cache[k].tag == Some(b);
    assert BufInv(c, s, w, s.cache[k]);
    assert Copy(s, k, b);
  }

  /** Nothing escapes the log: a home block whose content differs from its
      committed content is logged or still held by the client changing it. */
  lemma ChangesAreLogged(c: Config, states: seq<State>, steps: seq<Step>, i: nat, b: int, x: Block)
    requires Sized(c) && IsRun(c, states, steps) && Fits(c, |states[0].cache|) && i <= |steps| && states[i].up
    requires IsHome(c, b) && IsView(states[i], b, x)
    ensures |states[i].committed| == c.nblocks
    ensures x != states[i].committed[b] ==>
      b in states[i].lh || exists k :: Copy(states[i], k, b) && states[i].cache[k].unlogged
  {
    var s := states[i];
    var w := RunInv(c, states, steps, i);
    if x != s.committed[b] && b !in s.lh {
      assert s.disk[b] == s.committed[b];
      var k :| Copy(s, k, b);
      assert BufInv(c, s, w, s.cache[k]);
      assert Copy(s, k, b) && s.cache[k].unlogged;
    }
  }

  /** The step is a log_write() of block b. */
  ghost predicate LogsBlock(s: State, st: Step, b: int) {
    st.LogAppend? && st.i < |s.cache| && s.cache[st.i].tag == Some(b)
  }

  /** A log_write() of block b is among the steps from k to i. */
  ghost predicate LoggedIn(states: seq<State>, steps: seq<Step>, k: nat, i: nat, b: int)
    requires i <= |steps| <= |states|
  {
    exists j :: k <= j < i && LogsBlock(states[j], steps[j], b)
  }

  /** A step that may empty or replace the in-memory header. */
  predicate EndsTransaction(st: Step) {
    st.ClearStep? || st.Crash? || st.ReadHeadStep?
  }

  /** The in-memory header names exactly the blocks logged since it was empty. */
  lemma LoggedSince(c: Config, states: seq<State>, steps: seq<Step>, k: nat, i: nat, b: int)
    requires IsRun(c, states, steps) && k <= i <= |steps| && states[k].lh == []
    requires forall j :: k <= j < i ==> !EndsTransaction(steps[j])
    ensures b in states[i].lh <==> LoggedIn(states, steps, k, i, b)
  {
    forall j | k <= j < i ensures HeaderStep(states[j], steps[j], states[j + 1], b) {
      LogStep(c, states[j], steps[j], states[j + 1], b);
    }
    HeaderGrows(states, steps, k, i, b);
  }

  ghost predicate HeaderStep(s: State, st: Step, s': State, b: int) {
    b in s'.lh <==> b in s.lh || LogsBlock(s, st, b)
  }

  lemma {:induction false} HeaderGrows(states: seq<State>, steps: seq<Step>, k: nat, i: nat, b: int)
    requires k <= i <= |steps| < |states| && states[k].lh == []
    requires forall j :: k <= j < i ==> HeaderStep(states[j], steps[j], states[j + 1], b)
    ensures b in states[i].lh <==> LoggedIn(states, steps, k, i, b)
    decreases i - k
  {
    if k < i {
      HeaderGrows(states, steps, k, i - 1, b);
      LoggedInNext(states, steps, k, i, b);
      assert HeaderStep(states[i - 1], steps[i - 1], states[i], b);
    }
  }

  lemma LoggedInNext(states: seq<State>, steps: seq<Step>, k: nat, i: nat, b: int)
    requires k < i <= |steps| <= |states|
    ensures LoggedIn(states, steps, k, i, b) <==>
      LoggedIn(states, steps, k, i - 1, b) || LogsBlock(states[i - 1], steps[i - 1], b)
  {
  }

  lemma LogStep(c: Config, s: State, st: Step, s': State, b: int)
    requires Next(c, s, st, s') && !EndsTransaction(st)
    ensures HeaderStep(s, st, s', b)
  {
  }

  ghost predicate Working(s: State, p: Pid) {
    p in s.procs && s.procs[p].Worker?
  }

  /** Group commit: while a commit runs no operation is open, so end_op() never
      finds log.committing set; and nobody sleeps in begin_op() who would be admitted,
      so nobody when the log is neither committing nor in use. */
  lemma GroupCommit(c: Config, states: seq<State>, steps: seq<Step>, i: nat)
    requires IsRun(c, states, steps) && i <= |steps|
    ensures states[i].committing ==> states[i].outstanding == 0
    ensures forall p :: p in states[i].procs && states[i].procs[p].InOp? ==>
      !states[i].committing && 0 < states[i].outstanding
    ensures forall p, q :: Working(states[i], p) && Working(states[i], q) ==> p == q
    ensures forall p :: p in states[i].procs && states[i].procs[p].Asleep? ==>
      && (states[i].committing || 0 < states[i].outstanding)
      && (states[i].committing || |states[i].lh| + (states[i].outstanding + 1) * MAXOPBLOCKS > LOGSIZE)
  {
    var s := states[i];
    var w := RunKeepsOps(c, states, steps, i);
    RunKeepsSleep(c, states, steps, i);
    forall p | p in s.procs && s.procs[p].InOp? ensures !s.committing && 0 < s.outstanding {
      NotWorking(s, w, p);
    }
  }

  /** A transaction that is not being installed pins a buffer for each block. */
  lemma TransactionFits(c: Config, s: State, w: Option<Pid>)
    requires Inv(c, s, w) && (LOGSIZE < c.size || |s.cache| < c.size)
    ensures |s.lh| < c.size
  {
    if |s.cache| < c.size && Pending(s, w) == s.lh {
      CachedFit(s, s.lh);
    }
  }

  lemma {:induction false} CacheSize(c: Config, states: seq<State>, steps: seq<Step>, i: nat)
    requires IsRun(c, states, steps) && i <= |steps|
    ensures |states[i].cache| == |states[0].cache|
  {
    if 0 < i {
      CacheSize(c, states, steps, i - 1);
      StepKeepsCacheSize(c, states[i - 1], steps[i - 1], states[i]);
    }
  }

  lemma StepKeepsCacheSize(c: Config, s: State, st: Step, s': State)
    requires Next(c, s, st, s')
    ensures |s'.cache| == |s.cache|
  {
  }

  lemma {:induction false} HeaderSize(c: Config, states: seq<State>, steps: seq<Step>, i: nat)
    requires IsRun(c, states, steps) && i <= |steps|
    ensures |states[i].lh| <= LOGSIZE
  {
    if 0 < i {
      HeaderSize(c, states, steps, i - 1);
      StepKeepsHeaderSize(c, states[i - 1], steps[i - 1], states[i]);
    }
  }

  lemma StepKeepsHeaderSize(c: Config, s: State, st: Step, s': State)
    requires Next(c, s, st, s') && |s.lh| <= LOGSIZE
    ensures |s'.lh| <= LOGSIZE
  {
  }

  /** Whatever the operations log, no block is logged twice, and every slot in use lies
      in the log area if the area has room for the largest header or for a transaction
      that pins all buffers. */
  lemma HeaderBound(c: Config, states: seq<State>, steps: seq<Step>, i: nat)
    requires 0 < c.size && IsRun(c, states, steps) && i <= |steps|
    ensures |states[i].lh| <= LOGSIZE && Distinct(states[i].lh)
    ensures LOGSIZE < c.size || (Sized(c) && |states[0].cache| < c.size) ==>
      forall k :: 0 <= k < |states[i].lh| ==> c.start < Slot(c, k) < c.start + c.size
  {
    HeaderSize(c, states, steps, i);
    RunKeepsHeader(c, states, steps, i);
    if Sized(c) && |states[0].cache| < c.size {
      var v := RunInv(c, states, steps, i);
      CacheSize(c, states, steps, i);
      TransactionFits(c, states[i], v);
    }
  }

  /** Reservation: as long as no operation has logged more than MAXOPBLOCKS blocks,
      logged blocks and unspent reservations fit in the in-memory header. */
  lemma ReservationBound(c: Config, states: seq<State>, steps: seq<Step>, i: nat)
    requires IsRun(c, states, steps) && i <= |steps|
    requires forall j :: 0 <= j <= i ==> Thrifty(states[j])
    ensures |states[i].lh| + Sum(Unspent(states[i].procs)) <= LOGSIZE
  {
    RunKeepsBudget(c, states, steps, i);
  }

  /** Operation p has logged fewer blocks than it may, and log_write() panics. */
  ghost predicate Stuck(c: Config, s: State, p: Pid) {
    && p in s.procs && s.procs[p].InOp? && s.procs[p].spent < MAXOPBLOCKS
    && !(|s.lh| < LOGSIZE && |s.lh| < c.size - 1)
  }

  /** That is what the reservation is for: with it, an operation that logs no more than
      it may finds room in the header, and in a log area of more than LOGSIZE blocks. */
  lemma AdmittedPasses(c: Config, states: seq<State>, steps: seq<Step>, i: nat, p: Pid)
    requires IsRun(c, states, steps) && i <= |steps|
    requires forall j :: 0 <= j <= i ==> Thrifty(states[j])
    requires p in states[i].procs && states[i].procs[p].InOp? && states[i].procs[p].spent < MAXOPBLOCKS
    ensures |states[i].lh| < LOGSIZE && (LOGSIZE < c.size ==> !Stuck(c, states[i], p))
  {
    ReservationBound(c, states, steps, i);
    var m := Unspent(states[i].procs);
    SumUpdate(m, p, 0);
  }

  /** Whatever the operations log, no store goes past the end of log.lh.block if there
      are no more buffers than entries, or the log area is smaller than the array. */
  lemma NeverOverruns(c: Config, states: seq<State>, steps: seq<Step>, i: nat, p: Pid, k: nat)
    requires Sized(c) && IsRun(c, states, steps) && i <= |steps|
    requires |states[0].cache| <= LOGSIZE || c.size < LOGSIZE
    ensures !Overruns(c, states[i], p, k)
  {
    var s := states[i];
    if Overruns(c, s, p, k) {
      var w := RunKeepsOps(c, states, steps, i);
      RunKeepsPassed(c, states, steps, i);
      NotWorking(s, w, p);
      assert p in Passed(s.procs);
      var v := RunInv(c, states, steps, i);
      CacheSize(c, states, steps, i);
      OneBufferMore(c, s, v, k);
    }
  }

  /** A held block that is not logged needs a buffer beside those of the transaction. */
  lemma OneBufferMore(c: Config, s: State, w: Option<Pid>, k: nat)
    requires Inv(c, s, w) && w.None? && k < |s.cache| && s.cache[k].tag.Some? && s.cache[k].tag.value !in s.lh
    ensures |s.lh| < |s.cache|
  {
    var q := s.lh + [s.cache[k].tag.value];
    forall b | b in q ensures Cached(s, b) {
      assert b in s.lh ==> b in Pending(s, w);
    }
    CachedFit(s, q);
  }
}
