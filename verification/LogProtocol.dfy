/**
  The redo log of log.c on top of the buffer cache of bio.c, as a state machine.

  Any number of processes take steps in any order.  Every critical section that
  the kernel runs under a spinlock is one step, every disk write is one step,
  and a crash may come between any two steps and any number of times.  A crash
  forgets the cache and the in-memory log and leaves only the disk.

  `committed` is the content that the home blocks have been promised: it changes
  in one step only, the header write of commit(), and then for the whole
  transaction at once.
*/
module LogProtocol {
  import opened Options
  import opened Sums

  const MAXOPBLOCKS: nat := 10
  const LOGSIZE: nat := 3 * MAXOPBLOCKS
  const WORDS: nat := 128

  /** A disk block, as the 128 32-bit words that log.c sees in a header block. */
  type Block = b: seq<int> | |b| == WORDS witness seq(WORDS, _ => 0)
  type Pid = nat

  /** log.start and log.size, and the number of blocks on the device. */
  datatype Config = Config(start: nat, size: nat, nblocks: nat)

  /** The log area lies on the device and has a header block and a slot. */
  predicate Sized(c: Config) {
    2 <= c.size && c.start + c.size <= c.nblocks
  }

  /** The area has room for the largest transaction, or for one that pins all
      buffers but one: commit() needs that one to write the slots. */
  predicate Fits(c: Config, nbuf: nat) {
    LOGSIZE < c.size || nbuf <= c.size
  }

  predicate IsHome(c: Config, b: int) {
    0 <= b < c.nblocks && !(c.start <= b < c.start + c.size)
  }

  function Slot(c: Config, k: nat): nat {
    c.start + 1 + k
  }

  // ---------------------------------------------------------------- header

  predicate HeadOk(b: Block) {
    0 <= b[0] <= LOGSIZE
  }

  function Head(b: Block): (lh: seq<int>)
    requires HeadOk(b)
  {
    b[1..1 + b[0]]
  }

  /** write_head() overwrites the count and the first entries, and no more. */
  function EncodeHead(b: Block, lh: seq<int>): (r: Block)
    requires |lh| <= LOGSIZE
    ensures HeadOk(r) && Head(r) == lh
  {
    [|lh|] + lh + b[1 + |lh|..]
  }

  // ---------------------------------------------------------------- state

  /** A buffer.  `users` are the processes counted by refcnt, and `unlogged`
      says that the holder changed the data since it last logged it. */
  datatype Buf = Buf(tag: Option<int>, valid: bool, dirty: bool, data: Block,
                     refcnt: nat, users: set<Pid>, holder: Option<Pid>, unlogged: bool)

  datatype Phase = ReadHead | WriteLog(tail: nat) | WriteHead | Install(tail: nat) | Finish

  datatype Pc =
    | Idle
    | Asleep                              // in begin_op(), on channel &log
    | InOp(spent: nat, checked: bool)     // between begin_op() and end_op()
    | Worker(recovering: bool, phase: Phase)

  datatype State = State(
    disk: seq<Block>, committed: seq<Block>, cache: seq<Buf>,
    lh: seq<int>, outstanding: nat, committing: bool, up: bool,
    procs: map<Pid, Pc>)

  datatype Step =
    | BeginOp(p: Pid)
    | BgetHit(p: Pid, i: nat, b: int)
    | BgetMiss(p: Pid, i: nat, b: int)
    | Lock(p: Pid, i: nat)
    | Fill(p: Pid, i: nat)
    | Modify(p: Pid, i: nat, data: Block)
    | LogCheck(p: Pid)
    | LogAppend(p: Pid, i: nat)
    | Unlock(p: Pid, i: nat)
    | Drop(p: Pid, i: nat)
    | EndOp(p: Pid)
    | WriteLogStep(p: Pid, to: nat, from: nat)
    | WriteHeadStep(p: Pid, h: nat)
    | InstallStep(p: Pid, l: nat, d: nat)
    | ClearStep(p: Pid, h: nat)
    | FinishStep(p: Pid)
    | ReadHeadStep(p: Pid, h: nat)
    | Crash(p: Pid)

  function WakeAll(procs: map<Pid, Pc>): (r: map<Pid, Pc>) {
    map p | p in procs :: if procs[p].Asleep? then Idle else procs[p]
  }

  /** Process p may call into the buffer cache. */
  ghost predicate Active(s: State, p: Pid) {
    p in s.procs && !s.procs[p].Asleep? && (s.up || s.procs[p].Worker?)
  }

  /** Process p holds the sleep-lock of buffer i, which caches block b. */
  ghost predicate Holds(s: State, p: Pid, i: nat, b: int) {
    i < |s.cache| && s.cache[i].holder == Some(p) && s.cache[i].valid && s.cache[i].tag == Some(b)
  }

  ghost predicate At(s: State, p: Pid, phase: Phase) {
    p in s.procs && s.procs[p].Worker? && s.procs[p].phase == phase
  }

  function AtPhase(s: State, p: Pid, phase: Phase): map<Pid, Pc>
    requires p in s.procs && s.procs[p].Worker?
  {
    s.procs[p := s.procs[p].(phase := phase)]
  }

  // ---------------------------------------------------------------- steps

  /** begin_op(): one pass of the loop, up to its release or its sleep. */
  ghost predicate DoBeginOp(c: Config, s: State, p: Pid, s': State) {
    p in s.procs && s.procs[p].Idle? && s.up &&
    s' == (if s.committing || |s.lh| + (s.outstanding + 1) * MAXOPBLOCKS > LOGSIZE
           then s.(procs := s.procs[p := Asleep])
           else s.(outstanding := s.outstanding + 1, procs := s.procs[p := InOp(0, false)]))
  }

  ghost predicate DoBgetHit(c: Config, s: State, p: Pid, i: nat, b: int, s': State) {
    Active(s, p) && i < |s.cache| && s.cache[i].tag == Some(b) && p !in s.cache[i].users &&
    s' == s.(cache := s.cache[i := s.cache[i].(refcnt := s.cache[i].refcnt + 1,
                                               users := s.cache[i].users + {p})])
  }

  /** Recycling passes over buffers that are in use or pinned by B_DIRTY. */
  ghost predicate DoBgetMiss(c: Config, s: State, p: Pid, i: nat, b: int, s': State) {
    Active(s, p) && i < |s.cache| && 0 <= b < c.nblocks &&
    (forall j :: 0 <= j < |s.cache| ==> s.cache[j].tag != Some(b)) &&
    s.cache[i].refcnt == 0 && !s.cache[i].dirty &&
    s' == s.(cache := s.cache[i := s.cache[i].(tag := Some(b), valid := false, dirty := false,
                                               refcnt := 1, users := {p})])
  }

  ghost predicate DoLock(c: Config, s: State, p: Pid, i: nat, s': State) {
    i < |s.cache| && p in s.cache[i].users && s.cache[i].holder == None &&
    s' == s.(cache := s.cache[i := s.cache[i].(holder := Some(p))])
  }

  ghost predicate DoFill(c: Config, s: State, p: Pid, i: nat, s': State) {
    i < |s.cache| && s.cache[i].holder == Some(p) && !s.cache[i].valid &&
    s.cache[i].tag.Some? && 0 <= s.cache[i].tag.value < |s.disk| &&
    s' == s.(cache := s.cache[i := s.cache[i].(valid := true, data := s.disk[s.cache[i].tag.value])])
  }

  ghost predicate DoModify(c: Config, s: State, p: Pid, i: nat, data: Block, s': State) {
    p in s.procs && s.procs[p].InOp? && i < |s.cache| &&
    s.cache[i].holder == Some(p) && s.cache[i].valid &&
    s.cache[i].tag.Some? && IsHome(c, s.cache[i].tag.value) &&
    s' == s.(cache := s.cache[i := s.cache[i].(data := data, unlogged := true)])
  }

  /** log_write() reads log.lh.n for its size test before it takes the lock. */
  ghost predicate DoLogCheck(c: Config, s: State, p: Pid, s': State) {
    p in s.procs && s.procs[p].InOp? &&
    |s.lh| < LOGSIZE && |s.lh| < c.size - 1 &&
    s' == s.(procs := s.procs[p := s.procs[p].(checked := true)])
  }

  /** Process p is in log_write() for the home block in buffer i, behind the test. */
  ghost predicate InLogWrite(c: Config, s: State, p: Pid, i: nat) {
    p in s.procs && s.procs[p].InOp? && s.procs[p].checked && i < |s.cache| &&
    s.cache[i].holder == Some(p) && s.cache[i].valid &&
    s.cache[i].tag.Some? && IsHome(c, s.cache[i].tag.value)
  }

  /** The rest of log_write(): absorb a block logged before, else append it.  Nothing
      limits how often an operation does that; a run stops at the end of the array. */
  ghost predicate DoLogAppend(c: Config, s: State, p: Pid, i: nat, s': State) {
    InLogWrite(c, s, p, i) &&
    var b := s.cache[i].tag.value;
    var cache' := s.cache[i := s.cache[i].(dirty := true, unlogged := false)];
    if b in s.lh then
      s' == s.(cache := cache', procs := s.procs[p := s.procs[p].(checked := false)])
    else
      |s.lh| < LOGSIZE &&
      s' == s.(cache := cache', lh := s.lh + [b],
               procs := s.procs[p := InOp(s.procs[p].spent + 1, false)])
  }

  /** The store of log_write() goes past the end of log.lh.block. */
  ghost predicate Overruns(c: Config, s: State, p: Pid, i: nat) {
    InLogWrite(c, s, p, i) && s.cache[i].tag.value !in s.lh && LOGSIZE <= |s.lh|
  }

  /** brelse(), first half.  Clients log or write what they changed before it. */
  ghost predicate DoUnlock(c: Config, s: State, p: Pid, i: nat, s': State) {
    i < |s.cache| && s.cache[i].holder == Some(p) && !s.cache[i].unlogged &&
    s' == s.(cache := s.cache[i := s.cache[i].(holder := None)])
  }

  ghost predicate DoDrop(c: Config, s: State, p: Pid, i: nat, s': State) {
    i < |s.cache| && p in s.cache[i].users && s.cache[i].holder != Some(p) && 0 < s.cache[i].refcnt &&
    s' == s.(cache := s.cache[i := s.cache[i].(refcnt := s.cache[i].refcnt - 1,
                                               users := s.cache[i].users - {p})])
  }

  ghost predicate DoEndOp(c: Config, s: State, p: Pid, s': State) {
    p in s.procs && s.procs[p].InOp? && 0 < s.outstanding &&
    (forall i :: 0 <= i < |s.cache| && s.cache[i].holder == Some(p) ==> !s.cache[i].unlogged) &&
    s' == (if s.outstanding == 1 then
             s.(outstanding := 0, committing := true,
                procs := s.procs[p := Worker(false, if s.lh == [] then Finish else WriteLog(0))])
           else
             s.(outstanding := s.outstanding - 1, procs := WakeAll(s.procs[p := Idle])))
  }

  /** One turn of the loop of write_log(). */
  ghost predicate DoWriteLog(c: Config, s: State, p: Pid, to: nat, from: nat, s': State) {
    p in s.procs && s.procs[p].Worker? && s.procs[p].phase.WriteLog? &&
    var tail := s.procs[p].phase.tail;
    tail < |s.lh| && Slot(c, tail) < |s.disk| &&
    Holds(s, p, to, Slot(c, tail)) && Holds(s, p, from, s.lh[tail]) &&
    var data := s.cache[from].data;
    s' == s.(disk := s.disk[Slot(c, tail) := data],
             cache := s.cache[to := s.cache[to].(data := data, dirty := false)],
             procs := AtPhase(s, p, if tail + 1 < |s.lh| then WriteLog(tail + 1) else WriteHead))
  }

  /** The write of the header: the commit point. */
  ghost predicate DoWriteHead(c: Config, s: State, p: Pid, h: nat, s': State) {
    At(s, p, WriteHead) && Holds(s, p, h, c.start) && c.start < |s.disk| && |s.lh| <= LOGSIZE &&
    |s.committed| == |s.disk| && Slot(c, |s.lh|) <= |s.disk| &&
    var data := EncodeHead(s.cache[h].data, s.lh);
    s' == s.(disk := s.disk[c.start := data],
             cache := s.cache[h := s.cache[h].(data := data, dirty := false)],
             committed := Logged(c, s.disk, s.lh, s.committed),
             procs := AtPhase(s, p, Install(0)))
  }

  /** The blocks of `base` with those named in lh replaced by their log copies. */
  ghost function Logged(c: Config, disk: seq<Block>, lh: seq<int>, base: seq<Block>): (r: seq<Block>)
    requires Slot(c, |lh|) <= |disk| == |base|
    ensures |r| == |base|
    ensures forall b :: 0 <= b < |base| && b !in lh ==> r[b] == base[b]
  {
    if lh == [] then base
    else
      var n := |lh| - 1;
      var r := Logged(c, disk, lh[..n], base);
      if 0 <= lh[n] < |base| then r[lh[n] := disk[Slot(c, n)]] else r
  }

  /** One turn of the loop of install_trans(), in commit() or in recovery. */
  ghost predicate DoInstall(c: Config, s: State, p: Pid, l: nat, d: nat, s': State) {
    p in s.procs && s.procs[p].Worker? && s.procs[p].phase.Install? &&
    var tail := s.procs[p].phase.tail;
    tail < |s.lh| && 0 <= s.lh[tail] < |s.disk| &&
    Holds(s, p, l, Slot(c, tail)) && Holds(s, p, d, s.lh[tail]) &&
    var data := s.cache[l].data;
    s' == s.(disk := s.disk[s.lh[tail] := data],
             cache := s.cache[d := s.cache[d].(data := data, dirty := false)],
             procs := AtPhase(s, p, Install(tail + 1)))
  }

  /** The end of the loop, log.lh.n = 0 and the second write of the header. */
  ghost predicate DoClear(c: Config, s: State, p: Pid, h: nat, s': State) {
    At(s, p, Install(|s.lh|)) && Holds(s, p, h, c.start) && c.start < |s.disk| &&
    var data := EncodeHead(s.cache[h].data, []);
    s' == s.(disk := s.disk[c.start := data],
             cache := s.cache[h := s.cache[h].(data := data, dirty := false)],
             lh := [],
             up := true,
             procs := if s.procs[p].recovering then s.procs[p := Idle] else AtPhase(s, p, Finish))
  }

  /** The tail of end_op(): commit() has returned. */
  ghost predicate DoFinish(c: Config, s: State, p: Pid, s': State) {
    At(s, p, Finish) &&
    s' == s.(committing := false, procs := WakeAll(s.procs[p := Idle]))
  }

  ghost predicate DoReadHead(c: Config, s: State, p: Pid, h: nat, s': State) {
    At(s, p, ReadHead) && Holds(s, p, h, c.start) && HeadOk(s.cache[h].data) &&
    s' == s.(lh := Head(s.cache[h].data), procs := AtPhase(s, p, Install(0)))
  }

  /** Power fails; after the reboot p runs initlog() before anything else. */
  ghost predicate DoCrash(c: Config, s: State, p: Pid, s': State) {
    p in s.procs && s' == Booting(s.disk, s.committed, |s.cache|, s.procs.Keys, p)
  }

  ghost function Booting(disk: seq<Block>, committed: seq<Block>, nbuf: nat, pids: set<Pid>, p: Pid): State {
    State(disk, committed,
          seq(nbuf, _ => Buf(None, false, false, seq(WORDS, _ => 0), 0, {}, None, false)),
          [], 0, false, false,
          map q | q in pids :: if q == p then Worker(true, ReadHead) else Idle)
  }

  ghost predicate Next(c: Config, s: State, st: Step, s': State) {
    match st
    case BeginOp(p) => DoBeginOp(c, s, p, s')
    case BgetHit(p, i, b) => DoBgetHit(c, s, p, i, b, s')
    case BgetMiss(p, i, b) => DoBgetMiss(c, s, p, i, b, s')
    case Lock(p, i) => DoLock(c, s, p, i, s')
    case Fill(p, i) => DoFill(c, s, p, i, s')
    case Modify(p, i, data) => DoModify(c, s, p, i, data, s')
    case LogCheck(p) => DoLogCheck(c, s, p, s')
    case LogAppend(p, i) => DoLogAppend(c, s, p, i, s')
    case Unlock(p, i) => DoUnlock(c, s, p, i, s')
    case Drop(p, i) => DoDrop(c, s, p, i, s')
    case EndOp(p) => DoEndOp(c, s, p, s')
    case WriteLogStep(p, to, from) => DoWriteLog(c, s, p, to, from, s')
    case WriteHeadStep(p, h) => DoWriteHead(c, s, p, h, s')
    case InstallStep(p, l, d) => DoInstall(c, s, p, l, d, s')
    case ClearStep(p, h) => DoClear(c, s, p, h, s')
    case FinishStep(p) => DoFinish(c, s, p, s')
    case ReadHeadStep(p, h) => DoReadHead(c, s, p, h, s')
    case Crash(p) => DoCrash(c, s, p, s')
  }

  /** A fresh file system: the header mkfs writes is zero, and p boots. */
  ghost predicate Init(c: Config, s: State) {
    exists p, nbuf: nat, pids ::
      p in pids && s == Booting(s.disk, s.committed, nbuf, pids, p) &&
      |s.disk| == c.nblocks && s.committed == s.disk && c.start < c.nblocks && s.disk[c.start][0] == 0
  }

  ghost predicate IsRun(c: Config, states: seq<State>, steps: seq<Step>) {
    |states| == |steps| + 1 && Init(c, states[0]) &&
    forall i :: 0 <= i < |steps| ==> Next(c, states[i], steps[i], states[i + 1])
  }
}
