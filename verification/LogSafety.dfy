/** What every step of the log protocol keeps, and what follows for every run. */
module LogSafety {
  import opened Options
  import opened LogProtocol

  // ---------------------------------------------------------------- invariant

  ghost predicate Distinct(q: seq<int>) {
    forall i, j :: 0 <= i < j < |q| ==> q[i] != q[j]
  }

  ghost function InOps(procs: map<Pid, Pc>): set<Pid> {
    set p | p in procs && procs[p].InOp?
  }

  ghost predicate Recovering(s: State, w: Option<Pid>) {
    w.Some? && w.value in s.procs && s.procs[w.value].Worker? && s.procs[w.value].recovering
  }

  /** Blocks of the open transaction whose only current copy is in the cache. */
  ghost function Pending(s: State, w: Option<Pid>): seq<int> {
    if w.None? || w.value !in s.procs || !s.procs[w.value].Worker? then s.lh
    else if s.procs[w.value].recovering then []
    else if s.procs[w.value].phase.Install? && s.procs[w.value].phase.tail <= |s.lh|
    then s.lh[s.procs[w.value].phase.tail..]
    else s.lh
  }

  /** Process w, if there is one, is the only one inside commit() or recovery. */
  ghost predicate ProcInv(s: State, w: Option<Pid>) {
    && (forall p :: p in s.procs ==> (s.procs[p].Worker? <==> w == Some(p)))
    && (w.Some? ==> w.value in s.procs)
    && s.outstanding == |InOps(s.procs)|
    && (s.committing <==> w.Some? && !s.procs[w.value].recovering)
    && (!s.up <==> w.Some? && s.procs[w.value].recovering)
    && (w.Some? ==> s.outstanding == 0)
    && ((exists p :: p in s.procs && s.procs[p].Asleep?) ==> s.committing || 0 < s.outstanding)
    && (w.None? && s.outstanding == 0 ==> s.lh == [])
    && (w.Some? ==> PhaseInv(s, s.procs[w.value]))
  }

  ghost predicate PhaseInv(s: State, pc: Pc)
    requires pc.Worker?
  {
    match pc.phase
    case ReadHead => pc.recovering && s.lh == []
    case WriteLog(t) => !pc.recovering && t < |s.lh|
    case WriteHead => !pc.recovering
    case Install(t) => t <= |s.lh|
    case Finish => !pc.recovering && s.lh == []
  }

  ghost predicate LogInv(c: Config, s: State) {
    LhInv(c, s.lh) && |s.lh| <= LOGSIZE
  }

  ghost predicate LhInv(c: Config, lh: seq<int>) {
    && Distinct(lh)
    && (forall k :: 0 <= k < |lh| ==> IsHome(c, lh[k]))
  }

  ghost predicate BufInv(c: Config, s: State, w: Option<Pid>, b: Buf) {
    && b.refcnt == |b.users|
    && (b.holder.Some? ==> b.holder.value in b.users)
    && (b.tag.Some? ==> 0 <= b.tag.value < |s.disk|)
    && (b.dirty <==> b.tag.Some? && b.tag.value in Pending(s, w))
    && (b.dirty ==> b.valid)
    && (b.valid ==> b.tag.Some?)
    && (b.unlogged ==> b.valid && b.holder.Some? && b.holder.value in s.procs &&
                       s.procs[b.holder.value].InOp? && IsHome(c, b.tag.value))
    && (b.valid && !b.dirty && !b.unlogged ==> b.data == s.disk[b.tag.value])
  }

  ghost predicate CacheInv(c: Config, s: State, w: Option<Pid>) {
    && (forall i :: 0 <= i < |s.cache| ==> BufInv(c, s, w, s.cache[i]))
    && (forall i, j :: 0 <= i < j < |s.cache| && s.cache[i].tag.Some? ==> s.cache[i].tag != s.cache[j].tag)
    && (forall b :: b in Pending(s, w) ==> Cached(s, b))
  }

  ghost predicate Cached(s: State, b: int) {
    exists i :: 0 <= i < |s.cache| && s.cache[i].tag == Some(b)
  }

  /** What recovery needs of a disk: the home blocks named in the header have
      their committed content in the log, all others have it at home. */
  ghost predicate CrashSafe(c: Config, disk: seq<Block>, committed: seq<Block>) {
    && Sized(c) && |disk| == |committed| == c.nblocks
    && HeadOk(disk[c.start])
    && var h := Head(disk[c.start]);
    && |h| < c.size && Distinct(h)
    && (forall k :: 0 <= k < |h| ==> IsHome(c, h[k]) && disk[Slot(c, k)] == committed[h[k]])
    && (forall b :: IsHome(c, b) && b !in h ==> disk[b] == committed[b])
  }

  /** The cached copies of the first n logged blocks are in their log slots. */
  ghost predicate InSlots(c: Config, s: State, n: nat)
    requires n <= |s.lh| && Slot(c, n) <= |s.disk|
  {
    forall i, k :: 0 <= i < |s.cache| && 0 <= k < n && s.cache[i].dirty && s.cache[i].tag == Some(s.lh[k]) ==>
      s.cache[i].data == s.disk[Slot(c, k)]
  }

  ghost predicate DiskInv(c: Config, s: State, w: Option<Pid>)
    requires ProcInv(s, w)
  {
    && CrashSafe(c, s.disk, s.committed)
    && var h := Head(s.disk[c.start]);
    match w
    case None => h == []
    case Some(p) =>
      match s.procs[p].phase
      case ReadHead => true
      case WriteLog(t) => h == [] && (0 < t ==> |s.lh| < c.size) && InSlots(c, s, t)
      case WriteHead => h == [] && |s.lh| < c.size && InSlots(c, s, |s.lh|)
      case Install(t) =>
        && h == s.lh
        && (forall k :: 0 <= k < t ==> IsHome(c, s.lh[k]) && s.disk[s.lh[k]] == s.committed[s.lh[k]])
        && (!s.procs[p].recovering ==> InSlots(c, s, |s.lh|))
      case Finish => h == []
  }

  ghost predicate Inv(c: Config, s: State, w: Option<Pid>) {
    Fits(c, |s.cache|) && ProcInv(s, w) && LogInv(c, s) && CacheInv(c, s, w) && DiskInv(c, s, w)
  }

  /** The process that is the worker after a step. */
  ghost function NextWorker(s: State, w: Option<Pid>, st: Step): Option<Pid> {
    match st
    case EndOp(p) => if s.outstanding == 1 then Some(p) else w
    case ClearStep(p, _) => if Recovering(s, w) then None else w
    case FinishStep(p) => None
    case Crash(p) => Some(p)
    case _ => w
  }

  // ---------------------------------------------------------------- small facts

  /** Replacing one process's pc outside operations keeps counts and budgets. */
  lemma OpsUnchanged(procs: map<Pid, Pc>, p: Pid, pc: Pc)
    requires p in procs && !procs[p].InOp? && !pc.InOp?
    ensures InOps(procs[p := pc]) == InOps(procs)
  {
  }

  lemma WakeKeeps(procs: map<Pid, Pc>)
    ensures InOps(WakeAll(procs)) == InOps(procs)
  {
  }

  lemma NoneInOp(s: State, w: Option<Pid>)
    requires ProcInv(s, w) && s.outstanding == 0
    ensures forall p :: p in s.procs ==> !s.procs[p].InOp?
  {
    assert forall p :: p in s.procs && s.procs[p].InOp? ==> p in InOps(s.procs);
  }

  // ---------------------------------------------------------------- steps keep the invariant

  /** Buffer i may become b without harm to the cache or the log slots. */
  ghost predicate MayReplace(c: Config, s: State, w: Option<Pid>, i: nat, b: Buf) {
    && i < |s.cache|
    && BufInv(c, s, w, b)
    && (b.tag == s.cache[i].tag || (b.tag.Some? && !Cached(s, b.tag.value) && !s.cache[i].dirty))
    && (b.dirty ==> s.cache[i].dirty && (w.None? || b.data == s.cache[i].data))
  }

  lemma ReplaceKeepsCache(c: Config, s: State, w: Option<Pid>, i: nat, b: Buf, s': State)
    requires CacheInv(c, s, w) && MayReplace(c, s, w, i, b) && s' == s.(cache := s.cache[i := b])
    ensures CacheInv(c, s', w)
  {
    assert Pending(s', w) == Pending(s, w);
    forall j | 0 <= j < |s'.cache| ensures BufInv(c, s', w, s'.cache[j]) {
      assert BufInv(c, s, w, s.cache[j]);
    }
    forall b' | b' in Pending(s', w) ensures Cached(s', b') {
      var j :| 0 <= j < |s.cache| && s.cache[j].tag == Some(b');
      assert BufInv(c, s, w, s.cache[j]);
      assert s'.cache[j].tag == Some(b');
    }
  }

  lemma ReplaceKeepsSlots(c: Config, s: State, w: Option<Pid>, i: nat, b: Buf, s': State, n: nat)
    requires w.Some? && MayReplace(c, s, w, i, b) && s' == s.(cache := s.cache[i := b])
    requires n <= |s.lh| && Slot(c, n) <= |s.disk| && InSlots(c, s, n)
    ensures InSlots(c, s', n)
  {
  }

  /** A step that replaces one buffer and nothing else. */
  lemma BufferStepKeeps(c: Config, s: State, w: Option<Pid>, i: nat, b: Buf, s': State)
    requires Inv(c, s, w) && MayReplace(c, s, w, i, b) && s' == s.(cache := s.cache[i := b])
    ensures Inv(c, s', w)
  {
    ReplaceKeepsCache(c, s, w, i, b, s');
    if w.Some? {
      var phase := s.procs[w.value].phase;
      if phase.WriteLog? {
        ReplaceKeepsSlots(c, s, w, i, b, s', phase.tail);
      } else if phase.WriteHead? || (phase.Install? && !s.procs[w.value].recovering) {
        ReplaceKeepsSlots(c, s, w, i, b, s', |s.lh|);
      }
    }
  }

  /** A step that touches neither the cache nor the disk nor the worker's phase. */
  lemma ProcStepKeeps(c: Config, s: State, w: Option<Pid>, s': State)
    requires Inv(c, s, w) && ProcInv(s', w) && LogInv(c, s')
    requires s' == s.(procs := s'.procs, outstanding := s'.outstanding)
    requires w.Some? ==> s'.procs[w.value] == s.procs[w.value]
    requires forall i :: 0 <= i < |s.cache| && s.cache[i].unlogged && s.cache[i].holder.Some? ==>
      s.cache[i].holder.value in s'.procs && s'.procs[s.cache[i].holder.value].InOp?
    ensures Inv(c, s', w)
  {
    assert Pending(s', w) == Pending(s, w);
    forall j | 0 <= j < |s'.cache| ensures BufInv(c, s', w, s'.cache[j]) {
      assert BufInv(c, s, w, s.cache[j]);
    }
    forall b | b in Pending(s', w) ensures Cached(s', b) {
      assert Cached(s, b);
    }
  }

  lemma BeginOpKeeps(c: Config, s: State, w: Option<Pid>, p: Pid, s': State)
    requires Inv(c, s, w) && DoBeginOp(c, s, p, s')
    ensures Inv(c, s', w)
  {
    if s.committing || |s.lh| + (s.outstanding + 1) * MAXOPBLOCKS > LOGSIZE {
      OpsUnchanged(s.procs, p, Asleep);
    } else {
      assert InOps(s'.procs) == InOps(s.procs) + {p};
    }
    forall i | 0 <= i < |s.cache| && s.cache[i].unlogged && s.cache[i].holder.Some?
      ensures s.cache[i].holder.value in s'.procs && s'.procs[s.cache[i].holder.value].InOp?
    {
      assert BufInv(c, s, w, s.cache[i]);
    }
    ProcStepKeeps(c, s, w, s');
  }

  /** A cache step replaces its buffer and nothing else. */
  lemma CacheStepFrame(c: Config, s: State, st: Step, s': State)
    requires Next(c, s, st, s') && IsCacheStep(st)
    ensures st.i < |s.cache| == |s'.cache| && s' == s.(cache := s.cache[st.i := s'.cache[st.i]])
  {
  }

  /** What it does to the buffer is allowed: recycling, */
  lemma MissReplaces(c: Config, s: State, w: Option<Pid>, p: Pid, i: nat, b: int, s': State)
    requires i < |s.cache| && BufInv(c, s, w, s.cache[i]) && CacheInv(c, s, w) && |s.disk| == c.nblocks
    requires DoBgetMiss(c, s, p, i, b, s')
    ensures MayReplace(c, s, w, i, s'.cache[i])
  {
  }

  /** reading or changing the data, */
  lemma DataReplaces(c: Config, s: State, w: Option<Pid>, st: Step, s': State)
    requires (st.Fill? || st.Modify?) && st.i < |s.cache| && BufInv(c, s, w, s.cache[st.i]) && Next(c, s, st, s')
    requires (st.Modify? ==> w.None?)
    ensures MayReplace(c, s, w, st.i, s'.cache[st.i])
  {
  }

  /** and counting and locking. */
  lemma UseReplaces(c: Config, s: State, w: Option<Pid>, st: Step, s': State)
    requires (st.BgetHit? || st.Lock? || st.Unlock? || st.Drop?) && st.i < |s.cache| && BufInv(c, s, w, s.cache[st.i])
    requires Next(c, s, st, s')
    ensures MayReplace(c, s, w, st.i, s'.cache[st.i])
  {
  }

  lemma CacheStepsKeep(c: Config, s: State, w: Option<Pid>, st: Step, s': State)
    requires Inv(c, s, w) && Next(c, s, st, s') && IsCacheStep(st)
    ensures Inv(c, s', w)
  {
    if st.Modify? {
      NotWorking(s, w, st.p);
    }
    CacheStepFrame(c, s, st, s');
    assert BufInv(c, s, w, s.cache[st.i]);
    if st.BgetMiss? {
      MissReplaces(c, s, w, st.p, st.i, st.b, s');
    } else if st.Fill? || st.Modify? {
      DataReplaces(c, s, w, st, s');
    } else {
      UseReplaces(c, s, w, st, s');
    }
    BufferStepKeeps(c, s, w, st.i, s'.cache[st.i], s');
  }

  lemma LogCheckKeeps(c: Config, s: State, w: Option<Pid>, p: Pid, s': State)
    requires Inv(c, s, w) && DoLogCheck(c, s, p, s')
    ensures Inv(c, s', w)
  {
    assert InOps(s'.procs) == InOps(s.procs);
    forall i | 0 <= i < |s.cache| && s.cache[i].unlogged && s.cache[i].holder.Some?
      ensures s.cache[i].holder.value in s'.procs && s'.procs[s.cache[i].holder.value].InOp?
    {
      assert BufInv(c, s, w, s.cache[i]);
    }
    ProcStepKeeps(c, s, w, s');
  }

  lemma LogAppendKeepsProcs(c: Config, s: State, w: Option<Pid>, p: Pid, i: nat, s': State)
    requires ProcInv(s, w) && DoLogAppend(c, s, p, i, s')
    ensures ProcInv(s', w)
  {
    NotWorking(s, w, p);
    assert InOps(s'.procs) == InOps(s.procs);
    assert forall q :: q in s'.procs && s'.procs[q].Asleep? ==> s.procs[q].Asleep?;
  }

  lemma NotWorking(s: State, w: Option<Pid>, p: Pid)
    requires ProcInv(s, w) && p in s.procs && s.procs[p].InOp?
    ensures w.None? && 0 < s.outstanding
  {
    assert p in InOps(s.procs);
  }

  lemma LogAppendKeeps(c: Config, s: State, w: Option<Pid>, p: Pid, i: nat, s': State)
    requires Inv(c, s, w) && DoLogAppend(c, s, p, i, s')
    ensures Inv(c, s', w)
  {
    LogAppendKeepsProcs(c, s, w, p, i, s');
    NotWorking(s, w, p);
    forall j | 0 <= j < |s'.cache| ensures BufInv(c, s', w, s'.cache[j]) {
      assert BufInv(c, s, w, s.cache[j]);
    }
    forall b | b in Pending(s', w) ensures Cached(s', b) {
      if b in s.lh {
        assert b in Pending(s, w);
        var j :| 0 <= j < |s.cache| && s.cache[j].tag == Some(b);
        assert s'.cache[j].tag == Some(b);
      } else {
        assert s'.cache[i].tag == Some(b);
      }
    }
  }

  lemma EndOpKeepsProcs(c: Config, s: State, w: Option<Pid>, p: Pid, s': State)
    requires ProcInv(s, w) && DoEndOp(c, s, p, s')
    ensures ProcInv(s', NextWorker(s, w, EndOp(p)))
    ensures s.outstanding == 1 ==> InOps(s.procs) == {p}
  {
    NotWorking(s, w, p);
    var after := if s.outstanding == 1 then s'.procs else s.procs[p := Idle];
    WakeKeeps(after);
    assert InOps(after) == InOps(s.procs) - {p};
    if s.outstanding == 1 {
      assert |InOps(s.procs) - {p}| == 0;
    }
  }

  lemma EndOpKeeps(c: Config, s: State, w: Option<Pid>, p: Pid, s': State)
    requires Inv(c, s, w) && DoEndOp(c, s, p, s')
    ensures Inv(c, s', NextWorker(s, w, EndOp(p)))
  {
    EndOpKeepsProcs(c, s, w, p, s');
    NotWorking(s, w, p);
    var w' := NextWorker(s, w, EndOp(p));
    assert Pending(s', w') == Pending(s, w);
    forall j | 0 <= j < |s'.cache| ensures BufInv(c, s', w', s'.cache[j]) {
      assert BufInv(c, s, w, s.cache[j]);
      if s.cache[j].unlogged {
        assert s.cache[j].holder.value in InOps(s.procs);
      }
    }
    forall b | b in Pending(s', w') ensures Cached(s', b) {
      assert Cached(s, b);
    }
  }

  lemma FinishKeeps(c: Config, s: State, w: Option<Pid>, p: Pid, s': State)
    requires Inv(c, s, w) && DoFinish(c, s, p, s')
    ensures Inv(c, s', None)
  {
    OpsUnchanged(s.procs, p, Idle);
    WakeKeeps(s.procs[p := Idle]);
    NoneInOp(s, w);
    forall j | 0 <= j < |s'.cache| ensures BufInv(c, s', None, s'.cache[j]) {
      assert BufInv(c, s, w, s.cache[j]);
    }
  }

  lemma ReadHeadKeeps(c: Config, s: State, w: Option<Pid>, p: Pid, h: nat, s': State)
    requires Inv(c, s, w) && DoReadHead(c, s, p, h, s')
    ensures Inv(c, s', w)
  {
    OpsUnchanged(s.procs, p, s'.procs[p]);
    assert BufInv(c, s, w, s.cache[h]);
    NoneInOp(s, w);
    forall j | 0 <= j < |s'.cache| ensures BufInv(c, s', w, s'.cache[j]) {
      assert BufInv(c, s, w, s.cache[j]);
    }
  }

  lemma CrashKeeps(c: Config, s: State, w: Option<Pid>, p: Pid, s': State)
    requires Fits(c, |s.cache|) && CrashSafe(c, s.disk, s.committed) && DoCrash(c, s, p, s')
    ensures Inv(c, s', Some(p))
  {
    assert InOps(s'.procs) == {};
  }

  lemma WriteLogKeepsCache(c: Config, s: State, w: Option<Pid>, p: Pid, to: nat, from: nat, s': State)
    requires Inv(c, s, w) && DoWriteLog(c, s, p, to, from, s') && |s.lh| < c.size
    ensures CacheInv(c, s', w)
  {
    assert Pending(s', w) == Pending(s, w) == s.lh;
    assert BufInv(c, s, w, s.cache[to]);
    assert s.cache[to].tag.value !in s.lh;
    forall j | 0 <= j < |s'.cache| ensures BufInv(c, s', w, s'.cache[j]) {
      assert BufInv(c, s, w, s.cache[j]);
    }
    forall b | b in Pending(s', w) ensures Cached(s', b) {
      var j :| 0 <= j < |s.cache| && s.cache[j].tag == Some(b);
      assert s'.cache[j].tag == Some(b);
    }
  }

  lemma {:induction false} TagsFit(cache: seq<Buf>)
    ensures |Tags(cache)| <= |cache|
  {
    if cache != [] {
      var n := |cache| - 1;
      TagsFit(cache[..n]);
      assert Tags(cache) == Tags(cache[..n]) + TagOf(cache[n]);
    }
  }

  ghost function TagOf(b: Buf): set<int> {
    if b.tag.Some? then {b.tag.value} else {}
  }

  ghost function Tags(cache: seq<Buf>): set<int> {
    set i | 0 <= i < |cache| && cache[i].tag.Some? :: cache[i].tag.value
  }

  lemma {:induction false} DistinctFit(q: seq<int>, all: set<int>)
    requires Distinct(q) && forall k :: 0 <= k < |q| ==> q[k] in all
    ensures |q| <= |all|
  {
    if q != [] {
      var n := |q| - 1;
      DistinctFit(q[..n], all - {q[n]});
    }
  }

  /** Distinct cached blocks need a buffer each. */
  lemma CachedFit(s: State, q: seq<int>)
    requires Distinct(q) && forall b :: b in q ==> Cached(s, b)
    ensures |q| <= |s.cache|
  {
    forall k | 0 <= k < |q| ensures q[k] in Tags(s.cache) {
      assert Cached(s, q[k]);
    }
    DistinctFit(q, Tags(s.cache));
    TagsFit(s.cache);
  }

  /** write_log() holds a buffer for its slot beside those that the blocks of the
      transaction pin, so the slots are in the area. */
  lemma WriteLogInArea(c: Config, s: State, w: Option<Pid>, p: Pid, to: nat, from: nat, s': State)
    requires Inv(c, s, w) && DoWriteLog(c, s, p, to, from, s')
    ensures |s.lh| < c.size
  {
    if s.procs[p].phase.tail == 0 && c.size <= LOGSIZE {
      assert !IsHome(c, Slot(c, 0));
      var q := s.lh + [Slot(c, 0)];
      forall b | b in q ensures Cached(s, b) {
        assert b in s.lh ==> b in Pending(s, w);
        assert s.cache[to].tag == Some(Slot(c, 0));
      }
      CachedFit(s, q);
    }
  }

  lemma WriteLogKeeps(c: Config, s: State, w: Option<Pid>, p: Pid, to: nat, from: nat, s': State)
    requires Inv(c, s, w) && DoWriteLog(c, s, p, to, from, s')
    ensures Inv(c, s', w)
  {
    OpsUnchanged(s.procs, p, s'.procs[p]);
    WriteLogInArea(c, s, w, p, to, from, s');
    WriteLogKeepsCache(c, s, w, p, to, from, s');
    SlotKeepsSafe(c, s.disk, s.committed, s.procs[p].phase.tail, s'.disk[Slot(c, s.procs[p].phase.tail)]);
    WriteLogKeepsSlots(c, s, w, p, to, from, s');
  }

  /** With an empty header a log slot may hold anything. */
  lemma SlotKeepsSafe(c: Config, disk: seq<Block>, committed: seq<Block>, k: nat, data: Block)
    requires CrashSafe(c, disk, committed) && Head(disk[c.start]) == [] && k < c.size - 1
    ensures CrashSafe(c, disk[Slot(c, k) := data], committed) && Head(disk[Slot(c, k) := data][c.start]) == []
  {
  }

  lemma WriteLogKeepsSlots(c: Config, s: State, w: Option<Pid>, p: Pid, to: nat, from: nat, s': State)
    requires Sized(c) && LhInv(c, s.lh) && |s.lh| < c.size && |s.disk| == c.nblocks && CacheInv(c, s, w)
    requires DoWriteLog(c, s, p, to, from, s')
    requires s.procs[p].phase.tail < |s.lh| && InSlots(c, s, s.procs[p].phase.tail)
    ensures InSlots(c, s', s.procs[p].phase.tail + 1)
  {
    assert IsHome(c, s.lh[s.procs[p].phase.tail]);
  }

  /** Every block named in a duplicate-free list gets its log copy. */
  lemma {:induction false} LoggedAt(c: Config, disk: seq<Block>, lh: seq<int>, base: seq<Block>, k: nat)
    requires Slot(c, |lh|) <= |disk| == |base| && Distinct(lh) && k < |lh|
    requires forall j :: 0 <= j < |lh| ==> 0 <= lh[j] < |base|
    ensures Logged(c, disk, lh, base)[lh[k]] == disk[Slot(c, k)]
  {
    var n := |lh| - 1;
    if k < n {
      LoggedAt(c, disk, lh[..n], base, k);
    }
  }

  lemma WriteHeadKeepsDisk(c: Config, s: State, w: Option<Pid>, p: Pid, h: nat, s': State)
    requires Inv(c, s, w) && DoWriteHead(c, s, p, h, s')
    ensures CrashSafe(c, s'.disk, s'.committed)
  {
    forall k | 0 <= k < |s.lh| ensures s'.disk[Slot(c, k)] == s'.committed[s.lh[k]] {
      LoggedAt(c, s.disk, s.lh, s.committed, k);
    }
  }

  lemma WriteHeadKeeps(c: Config, s: State, w: Option<Pid>, p: Pid, h: nat, s': State)
    requires Inv(c, s, w) && DoWriteHead(c, s, p, h, s')
    ensures Inv(c, s', w)
  {
    WriteHeadKeepsProcs(c, s, w, p, h, s');
    HeadBufferKeeps(c, s, w, p, h, s');
    WriteHeadKeepsDisk(c, s, w, p, h, s');
    WriteHeadKeepsSlots(c, s, p, h, s');
  }

  lemma WriteHeadKeepsProcs(c: Config, s: State, w: Option<Pid>, p: Pid, h: nat, s': State)
    requires Inv(c, s, w) && DoWriteHead(c, s, p, h, s')
    ensures ProcInv(s', w) && LogInv(c, s') && Pending(s', w) == Pending(s, w) && w == Some(p) && !Recovering(s, w)
  {
    OpsUnchanged(s.procs, p, s'.procs[p]);
  }

  lemma WriteHeadKeepsSlots(c: Config, s: State, p: Pid, h: nat, s': State)
    requires Sized(c) && LhInv(c, s.lh) && Slot(c, |s.lh|) <= |s.disk|
    requires DoWriteHead(c, s, p, h, s') && InSlots(c, s, |s.lh|)
    ensures InSlots(c, s', |s.lh|)
  {
  }

  /** Writing the header block through its buffer keeps the rest of the cache. */
  lemma HeadBufferKeeps(c: Config, s: State, w: Option<Pid>, p: Pid, h: nat, s': State)
    requires CacheInv(c, s, w) && LogInv(c, s) && ProcInv(s, w) && Holds(s, p, h, c.start) && c.start < |s.disk|
    requires At(s, p, WriteHead) || At(s, p, Install(|s.lh|))
    requires Sized(c) && |s.disk| == c.nblocks && !Recovering(s, w)
    requires Pending(s', w) == Pending(s, w) && h < |s'.cache|
    requires s'.disk == s.disk[c.start := s'.cache[h].data]
    requires s'.cache == s.cache[h := s.cache[h].(data := s'.cache[h].data, dirty := false)]
    requires s'.procs.Keys == s.procs.Keys
    ensures CacheInv(c, s', w)
  {
    NoneInOp(s, w);
    assert BufInv(c, s, w, s.cache[h]);
    forall j | 0 <= j < |s'.cache| ensures BufInv(c, s', w, s'.cache[j]) {
      assert BufInv(c, s, w, s.cache[j]);
    }
    forall b | b in Pending(s', w) ensures Cached(s', b) {
      var j :| 0 <= j < |s.cache| && s.cache[j].tag == Some(b);
      assert s'.cache[j].tag == Some(b);
    }
  }

  lemma InstallPending(c: Config, s: State, w: Option<Pid>, p: Pid, l: nat, d: nat, s': State)
    requires ProcInv(s, w) && LhInv(c, s.lh) && DoInstall(c, s, p, l, d, s')
    ensures forall b :: b in Pending(s', w) <==> b in Pending(s, w) && b != s.lh[s.procs[p].phase.tail]
  {
    var tail := s.procs[p].phase.tail;
    if !Recovering(s, w) {
      assert s.lh[tail..] == [s.lh[tail]] + s.lh[tail + 1..];
    }
  }

  lemma InstallKeepsCache(c: Config, s: State, w: Option<Pid>, p: Pid, l: nat, d: nat, s': State)
    requires ProcInv(s, w) && LhInv(c, s.lh) && CacheInv(c, s, w) && DoInstall(c, s, p, l, d, s')
    ensures CacheInv(c, s', w)
  {
    NoneInOp(s, w);
    InstallPending(c, s, w, p, l, d, s');
    forall j | 0 <= j < |s'.cache| ensures BufInv(c, s', w, s'.cache[j]) {
      assert BufInv(c, s, w, s.cache[j]);
    }
    forall b | b in Pending(s', w) ensures Cached(s', b) {
      assert Cached(s, b);
      var j :| 0 <= j < |s.cache| && s.cache[j].tag == Some(b);
      assert s'.cache[j].tag == Some(b);
    }
  }

  /** The log copy of the block being installed is what was committed for it. */
  lemma InstallsCommitted(c: Config, s: State, w: Option<Pid>, p: Pid, l: nat, d: nat, s': State)
    requires Inv(c, s, w) && DoInstall(c, s, p, l, d, s')
    ensures s'.disk == s.disk[s.lh[s.procs[p].phase.tail] := s.committed[s.lh[s.procs[p].phase.tail]]]
  {
    assert BufInv(c, s, w, s.cache[l]);
    assert s.cache[l].tag.value !in Pending(s, w);
    NoneInOp(s, w);
  }

  lemma InstallKeepsSafe(c: Config, disk: seq<Block>, committed: seq<Block>, b: int)
    requires CrashSafe(c, disk, committed) && IsHome(c, b)
    ensures CrashSafe(c, disk[b := committed[b]], committed)
  {
  }

  lemma InstallKeepsSlots(c: Config, s: State, w: Option<Pid>, p: Pid, l: nat, d: nat, s': State)
    requires LhInv(c, s.lh) && Slot(c, |s.lh|) <= |s.disk| && Sized(c) && |s.lh| < c.size
    requires DoInstall(c, s, p, l, d, s') && InSlots(c, s, |s.lh|)
    ensures InSlots(c, s', |s.lh|)
  {
  }

  lemma InstalledNext(c: Config, disk: seq<Block>, committed: seq<Block>, lh: seq<int>, t: nat)
    requires LhInv(c, lh) && t < |lh| && |disk| == |committed| == c.nblocks && c.start < c.nblocks && Sized(c)
    requires forall k :: 0 <= k < t ==> disk[lh[k]] == committed[lh[k]]
    ensures forall k :: 0 <= k < t + 1 ==>
      IsHome(c, lh[k]) && disk[lh[t] := committed[lh[t]]][lh[k]] == committed[lh[k]]
    ensures disk[lh[t] := committed[lh[t]]][c.start] == disk[c.start]
  {
    assert IsHome(c, lh[t]);
  }

  lemma InstallKeepsDisk(c: Config, s: State, w: Option<Pid>, p: Pid, l: nat, d: nat, s': State)
    requires ProcInv(s, w) && LhInv(c, s.lh) && DiskInv(c, s, w)
    requires DoInstall(c, s, p, l, d, s') && ProcInv(s', w) && CrashSafe(c, s'.disk, s'.committed)
    requires s'.disk == s.disk[s.lh[s.procs[p].phase.tail] := s.committed[s.lh[s.procs[p].phase.tail]]]
    ensures DiskInv(c, s', w)
  {
    InstalledNext(c, s.disk, s.committed, s.lh, s.procs[p].phase.tail);
    if !Recovering(s, w) {
      InstallKeepsSlots(c, s, w, p, l, d, s');
    }
  }

  lemma InstallKeeps(c: Config, s: State, w: Option<Pid>, p: Pid, l: nat, d: nat, s': State)
    requires Inv(c, s, w) && DoInstall(c, s, p, l, d, s')
    ensures Inv(c, s', w)
  {
    OpsUnchanged(s.procs, p, s'.procs[p]);
    InstallKeepsCache(c, s, w, p, l, d, s');
    InstallsCommitted(c, s, w, p, l, d, s');
    InstallKeepsSafe(c, s.disk, s.committed, s.lh[s.procs[p].phase.tail]);
    InstallKeepsDisk(c, s, w, p, l, d, s');
  }

  /** Once every block is installed the home blocks are the committed ones. */
  lemma InstalledAll(c: Config, s: State, w: Option<Pid>, p: Pid)
    requires Inv(c, s, w) && At(s, p, Install(|s.lh|))
    ensures forall b :: IsHome(c, b) ==> s.disk[b] == s.committed[b]
  {
  }

  lemma ClearKeeps(c: Config, s: State, w: Option<Pid>, p: Pid, h: nat, s': State)
    requires Inv(c, s, w) && DoClear(c, s, p, h, s')
    ensures Inv(c, s', NextWorker(s, w, ClearStep(p, h)))
  {
    var w' := NextWorker(s, w, ClearStep(p, h));
    OpsUnchanged(s.procs, p, s'.procs[p]);
    NoneInOp(s, w);
    InstalledAll(c, s, w, p);
    assert Pending(s', w') == Pending(s, w) == [];
    forall j | 0 <= j < |s'.cache| ensures BufInv(c, s', w', s'.cache[j]) {
      assert BufInv(c, s, w, s.cache[j]);
    }
  }

  // ---------------------------------------------------------------- every run

  ghost predicate IsCacheStep(st: Step) {
    st.BgetHit? || st.BgetMiss? || st.Lock? || st.Fill? || st.Modify? || st.Unlock? || st.Drop?
  }

  ghost predicate IsWorkerStep(st: Step) {
    st.WriteLogStep? || st.WriteHeadStep? || st.InstallStep? || st.ClearStep? || st.FinishStep? || st.ReadHeadStep?
  }

  lemma WorkerStepsKeep(c: Config, s: State, w: Option<Pid>, st: Step, s': State)
    requires Inv(c, s, w) && Next(c, s, st, s') && IsWorkerStep(st)
    ensures Inv(c, s', NextWorker(s, w, st))
  {
    match st
    case WriteLogStep(p, to, from) => WriteLogKeeps(c, s, w, p, to, from, s');
    case WriteHeadStep(p, h) => WriteHeadKeeps(c, s, w, p, h, s');
    case InstallStep(p, l, d) => InstallKeeps(c, s, w, p, l, d, s');
    case ClearStep(p, h) => ClearKeeps(c, s, w, p, h, s');
    case FinishStep(p) => FinishKeeps(c, s, w, p, s');
    case ReadHeadStep(p, h) => ReadHeadKeeps(c, s, w, p, h, s');
  }

  lemma ClientStepsKeep(c: Config, s: State, w: Option<Pid>, st: Step, s': State)
    requires Inv(c, s, w) && Next(c, s, st, s') && !IsWorkerStep(st) && !IsCacheStep(st)
    ensures Inv(c, s', NextWorker(s, w, st))
  {
    match st
    case BeginOp(p) => BeginOpKeeps(c, s, w, p, s');
    case LogCheck(p) => LogCheckKeeps(c, s, w, p, s');
    case LogAppend(p, i) => LogAppendKeeps(c, s, w, p, i, s');
    case EndOp(p) => EndOpKeeps(c, s, w, p, s');
    case Crash(p) => CrashKeeps(c, s, w, p, s');
  }

  /** Every step of every process, and every crash, keeps the invariant. */
  lemma StepKeeps(c: Config, s: State, w: Option<Pid>, st: Step, s': State)
    requires Inv(c, s, w) && Next(c, s, st, s')
    ensures Inv(c, s', NextWorker(s, w, st))
  {
    if IsCacheStep(st) {
      CacheStepsKeep(c, s, w, st, s');
    } else if IsWorkerStep(st) {
      WorkerStepsKeep(c, s, w, st, s');
    } else {
      ClientStepsKeep(c, s, w, st, s');
    }
  }

  lemma InitInv(c: Config, s: State) returns (w: Option<Pid>)
    requires Sized(c) && Fits(c, |s.cache|) && Init(c, s)
    ensures Inv(c, s, w)
  {
    var p, nbuf: nat, pids :| p in pids && s == Booting(s.disk, s.committed, nbuf, pids, p);
    w := Some(p);
    assert CrashSafe(c, s.disk, s.committed);
    CrashKeeps(c, s, w, p, s);
  }

  lemma {:induction false} RunInv(c: Config, states: seq<State>, steps: seq<Step>, i: nat) returns (w: Option<Pid>)
    requires Sized(c) && IsRun(c, states, steps) && Fits(c, |states[0].cache|) && i <= |steps|
    ensures Inv(c, states[i], w)
  {
    if i == 0 {
      w := InitInv(c, states[0]);
    } else {
      var v := RunInv(c, states, steps, i - 1);
      StepKeeps(c, states[i - 1], v, steps[i - 1], states[i]);
      w := NextWorker(states[i - 1], v, steps[i - 1]);
    }
  }
}
