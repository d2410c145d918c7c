/**
  pipe.c as a state machine.  A process takes the pipe's lock, copies byte by
  byte, and either goes to sleep, which releases the lock, or wakes the other
  side and releases it.  The two counters wrap at 32 bits.
*/
module Pipe {

  const PIPESIZE: nat := 512
  const UINT: nat := 0x1_0000_0000

  type byte = x: int | 0 <= x < 256

  /** Where a process is in pipewrite() or piperead().  W* and R* tell the end;
      Wait is before acquire(), also inside sleep() after a wakeup. */
  datatype Pc =
    | Out
    | WWait(addr: seq<byte>, i: nat)
    | WLoop(addr: seq<byte>, i: nat)
    | WSleep(addr: seq<byte>, i: nat)
    | RWait(n: nat)
    | RLoop(n: nat)
    | RSleep(n: nat)
    | RCopy(n: nat, buf: seq<byte>)    // buf has been copied to the reader

  predicate Writing(pc: Pc) {
    pc.WWait? || pc.WLoop? || pc.WSleep?
  }

  predicate Reading(pc: Pc) {
    pc.RWait? || pc.RLoop? || pc.RSleep? || pc.RCopy?
  }

  predicate Inside(pc: Pc) {
    pc.WLoop? || pc.RLoop? || pc.RCopy?
  }

  /** written and taken record all bytes that went in and came out, in order. */
  datatype State = State(
    data: seq<byte>, nread: nat, nwrite: nat, readopen: bool, writeopen: bool,
    locked: bool, pc: map<nat, Pc>, killed: set<nat>,
    written: seq<byte>, taken: seq<byte>)

  datatype Step =
    | Write(p: nat, addr: seq<byte>) | Read(p: nat, n: nat) | Acquire(p: nat)
    | WriteFails(p: nat) | WriteSleeps(p: nat) | WriteByte(p: nat) | WriteEnds(p: nat)
    | ReadFails(p: nat) | ReadSleeps(p: nat) | ReadStarts(p: nat) | ReadByte(p: nat) | ReadEnds(p: nat)
    | Close(writable: bool) | Kill(p: nat)

  // ---------------------------------------------------------------- the code

  /** p->nwrite == p->nread + PIPESIZE */
  predicate Full(s: State) {
    s.nwrite == (s.nread + PIPESIZE) % UINT
  }

  predicate Empty(s: State) {
    s.nread == s.nwrite
  }

  /** wakeup(&p->nread) */
  function WakeReaders(pc: map<nat, Pc>): map<nat, Pc> {
    map p | p in pc :: if pc[p].RSleep? then RWait(pc[p].n) else pc[p]
  }

  /** wakeup(&p->nwrite) */
  function WakeWriters(pc: map<nat, Pc>): map<nat, Pc> {
    map p | p in pc :: if pc[p].WSleep? then WWait(pc[p].addr, pc[p].i) else pc[p]
  }

  /** A write starts with the write end open, and a read with the read end. */
  predicate DoCall(s: State, p: nat, to: Pc, open: bool, s': State) {
    p in s.pc && s.pc[p].Out? && open && s' == s.(pc := s.pc[p := to])
  }

  predicate DoAcquire(s: State, p: nat, s': State) {
    && p in s.pc && !s.locked && (s.pc[p].WWait? || s.pc[p].RWait?)
    && s' == s.(locked := true,
                pc := s.pc[p := if s.pc[p].WWait? then WLoop(s.pc[p].addr, s.pc[p].i) else RLoop(s.pc[p].n)])
  }

  predicate Room(s: State, p: nat) {
    p in s.pc && s.pc[p].WLoop? && s.pc[p].i < |s.pc[p].addr| && !Full(s)
  }

  predicate NoRoom(s: State, p: nat) {
    p in s.pc && s.pc[p].WLoop? && s.pc[p].i < |s.pc[p].addr| && Full(s)
  }

  predicate DoWriteFails(s: State, p: nat, s': State) {
    && NoRoom(s, p) && (!s.readopen || p in s.killed)
    && s' == s.(locked := false, pc := s.pc[p := Out])
  }

  /** A kill that comes between the test of `killed` and sleep() finds nobody asleep:
      the process sleeps killed. */
  predicate DoWriteSleeps(s: State, p: nat, s': State) {
    && NoRoom(s, p) && s.readopen
    && s' == s.(locked := false, pc := WakeReaders(s.pc)[p := WSleep(s.pc[p].addr, s.pc[p].i)])
  }

  /** p->data[p->nwrite++ % PIPESIZE] = addr[i] */
  predicate DoWriteByte(s: State, p: nat, s': State) {
    && Room(s, p) && |s.data| == PIPESIZE
    && s' == s.(data := s.data[s.nwrite % PIPESIZE := s.pc[p].addr[s.pc[p].i]], nwrite := (s.nwrite + 1) % UINT,
                written := s.written + [s.pc[p].addr[s.pc[p].i]], pc := s.pc[p := WLoop(s.pc[p].addr, s.pc[p].i + 1)])
  }

  predicate DoWriteEnds(s: State, p: nat, s': State) {
    && p in s.pc && s.pc[p].WLoop? && |s.pc[p].addr| <= s.pc[p].i
    && s' == s.(locked := false, pc := WakeReaders(s.pc)[p := Out])
  }

  predicate DoReadFails(s: State, p: nat, s': State) {
    && p in s.pc && s.pc[p].RLoop? && Empty(s) && s.writeopen && p in s.killed
    && s' == s.(locked := false, pc := s.pc[p := Out])
  }

  predicate DoReadSleeps(s: State, p: nat, s': State) {
    && p in s.pc && s.pc[p].RLoop? && Empty(s) && s.writeopen
    && s' == s.(locked := false, pc := s.pc[p := RSleep(s.pc[p].n)])
  }

  predicate DoReadStarts(s: State, p: nat, s': State) {
    && p in s.pc && s.pc[p].RLoop? && !(Empty(s) && s.writeopen)
    && s' == s.(pc := s.pc[p := RCopy(s.pc[p].n, [])])
  }

  /** addr[i] = p->data[p->nread++ % PIPESIZE] */
  predicate DoReadByte(s: State, p: nat, s': State) {
    && p in s.pc && s.pc[p].RCopy? && |s.pc[p].buf| < s.pc[p].n && !Empty(s) && |s.data| == PIPESIZE
    && s' == s.(nread := (s.nread + 1) % UINT, taken := s.taken + [s.data[s.nread % PIPESIZE]],
                pc := s.pc[p := RCopy(s.pc[p].n, s.pc[p].buf + [s.data[s.nread % PIPESIZE]])])
  }

  predicate DoReadEnds(s: State, p: nat, s': State) {
    && p in s.pc && s.pc[p].RCopy? && (s.pc[p].n <= |s.pc[p].buf| || Empty(s))
    && s' == s.(locked := false, pc := WakeWriters(s.pc)[p := Out])
  }

  /** pipeclose(): fileclose() calls it for the last reference to an end, when no
      process is in a call on that end. */
  ghost predicate DoClose(s: State, writable: bool, s': State) {
    && !s.locked
    && (if writable then s.writeopen && (forall p :: p in s.pc ==> !Writing(s.pc[p]))
        else s.readopen && (forall p :: p in s.pc ==> !Reading(s.pc[p])))
    && s' == if writable then s.(writeopen := false, pc := WakeReaders(s.pc))
             else s.(readopen := false, pc := WakeWriters(s.pc))
  }

  /** kill(): a process that sleeps is woken. */
  predicate DoKill(s: State, p: nat, s': State) {
    && p in s.pc
    && s' == s.(killed := s.killed + {p},
                pc := s.pc[p := match s.pc[p]
                                      case WSleep(a, i) => WWait(a, i) case RSleep(n) => RWait(n) case _ => s.pc[p]])
  }

  ghost predicate Next(s: State, step: Step, s': State) {
    match step
    case Write(p, addr) => DoCall(s, p, WWait(addr, 0), s.writeopen, s')
    case Read(p, n) => DoCall(s, p, RWait(n), s.readopen, s')
    case Acquire(p) => DoAcquire(s, p, s')
    case WriteFails(p) => DoWriteFails(s, p, s')
    case WriteSleeps(p) => DoWriteSleeps(s, p, s')
    case WriteByte(p) => DoWriteByte(s, p, s')
    case WriteEnds(p) => DoWriteEnds(s, p, s')
    case ReadFails(p) => DoReadFails(s, p, s')
    case ReadSleeps(p) => DoReadSleeps(s, p, s')
    case ReadStarts(p) => DoReadStarts(s, p, s')
    case ReadByte(p) => DoReadByte(s, p, s')
    case ReadEnds(p) => DoReadEnds(s, p, s')
    case Close(writable) => DoClose(s, writable, s')
    case Kill(p) => DoKill(s, p, s')
  }

  predicate Init(s: State) {
    && |s.data| == PIPESIZE && s.nread == 0 && s.nwrite == 0 && s.readopen && s.writeopen && !s.locked
    && (forall p :: p in s.pc ==> s.pc[p].Out?) && s.killed == {} && s.written == [] && s.taken == []
  }

  ghost predicate IsRun(states: seq<State>, steps: seq<Step>) {
    && |states| == |steps| + 1 && Init(states[0])
    && (forall i :: 0 <= i < |steps| ==> Next(states[i], steps[i], states[i + 1]))
  }

  // ---------------------------------------------------------------- first in, first out

  /** The ring holds the bytes that are written and not yet taken; the counters
      are the numbers of bytes, taken modulo 2^32. */
  ghost predicate Ring(s: State) {
    && |s.data| == PIPESIZE
    && |s.taken| <= |s.written| <= |s.taken| + PIPESIZE
    && s.taken == s.written[..|s.taken|]
    && s.nread == |s.taken| % UINT && s.nwrite == |s.written| % UINT
    && (forall k :: |s.taken| <= k < |s.written| ==> s.data[k % PIPESIZE] == s.written[k])
  }

  /** The wrapped counters compare as the numbers do, since 512 divides 2^32. */
  lemma Wrapping(r: nat, w: nat)
    requires r <= w <= r + PIPESIZE
    ensures r % UINT == w % UINT <==> r == w
    ensures w % UINT == (r % UINT + PIPESIZE) % UINT <==> w == r + PIPESIZE
    ensures w % UINT % PIPESIZE == w % PIPESIZE && r % UINT % PIPESIZE == r % PIPESIZE
    ensures (w % UINT + 1) % UINT == (w + 1) % UINT && (r % UINT + 1) % UINT == (r + 1) % UINT
  {
    WrappedSlot(r);
    WrappedSlot(w);
    WrappedSum(r, 1);
    WrappedSum(w, 1);
    WrappedSum(r, PIPESIZE);
    WrappedEqual(r, w - r);
    WrappedEqual(w, r + PIPESIZE - w);
  }

  lemma WrappedSlot(w: nat)
    ensures w % UINT % PIPESIZE == w % PIPESIZE
  {
  }

  lemma WrappedSum(w: nat, d: nat)
    requires d < UINT
    ensures (w % UINT + d) % UINT == (w + d) % UINT
  {
  }

  lemma WrappedEqual(w: nat, d: nat)
    requires d < UINT
    ensures (w + d) % UINT == w % UINT <==> d == 0
  {
  }

  lemma SlotsDistinct(k: nat, w: nat)
    requires k < w < k + PIPESIZE
    ensures k % PIPESIZE != w % PIPESIZE
  {
  }

  lemma WriteKeepsRing(s: State, p: nat, s': State)
    requires Ring(s) && DoWriteByte(s, p, s')
    ensures Ring(s')
  {
    var r, w := |s.taken|, |s.written|;
    Wrapping(r, w);
    forall k | r <= k < w + 1 ensures s'.data[k % PIPESIZE] == s'.written[k] {
      if k < w {
        SlotsDistinct(k, w);
      }
    }
  }

  lemma ReadKeepsRing(s: State, p: nat, s': State)
    requires Ring(s) && DoReadByte(s, p, s')
    ensures Ring(s')
  {
    var r, w := |s.taken|, |s.written|;
    Wrapping(r, w);
    assert s.data[r % PIPESIZE] == s.written[r];
    assert s.written[..r + 1] == s.written[..r] + [s.written[r]];
  }

  lemma StepKeepsRing(s: State, step: Step, s': State)
    requires Ring(s) && Next(s, step, s')
    ensures Ring(s')
  {
    match step
    case WriteByte(p) => WriteKeepsRing(s, p, s');
    case ReadByte(p) => ReadKeepsRing(s, p, s');
    case _ =>
  }

  /** In every run, also with kills and closes, the bytes read are the first of
      the bytes written and at most PIPESIZE are pending. */
  lemma {:induction false} FirstInFirstOut(states: seq<State>, steps: seq<Step>, i: nat)
    requires IsRun(states, steps) && i < |states|
    ensures Ring(states[i])
    ensures states[i].taken <= states[i].written && |states[i].written| <= |states[i].taken| + PIPESIZE
  {
    if 0 < i {
      FirstInFirstOut(states, steps, i - 1);
      StepKeepsRing(states[i - 1], steps[i - 1], states[i]);
    }
  }

  // ---------------------------------------------------------------- no lost wakeup

  /** At most one process is between acquire() and release(). */
  ghost predicate Exclusive(s: State) {
    && (!s.locked ==> forall p :: p in s.pc ==> !Inside(s.pc[p]))
    && (forall p, q :: p in s.pc && q in s.pc && Inside(s.pc[p]) && Inside(s.pc[q]) ==> p == q)
  }

  /** A closed end has no process in a call on it. */
  ghost predicate Ends(s: State) {
    && (!s.writeopen ==> forall p :: p in s.pc ==> !Writing(s.pc[p]))
    && (!s.readopen ==> forall p :: p in s.pc ==> !Reading(s.pc[p]))
  }

  ghost predicate InWrite(s: State) {
    exists p :: p in s.pc && s.pc[p].WLoop?
  }

  ghost predicate InRead(s: State) {
    exists p :: p in s.pc && s.pc[p].RCopy?
  }

  /** A reader sleeps only on an empty open pipe, or while a writer is inside who
      will wake it; and the other way round. */
  ghost predicate Sleepers(s: State) {
    && (forall p :: p in s.pc && s.pc[p].RSleep? && !InWrite(s) ==> Empty(s) && s.writeopen)
    && (forall p :: p in s.pc && s.pc[p].WSleep? && !InRead(s) ==> Full(s) && s.readopen)
  }

  ghost predicate Inv(s: State) {
    Ring(s) && Exclusive(s) && Ends(s)
  }

  predicate IsEntry(step: Step) {
    step.Write? || step.Read? || step.Acquire? || step.Close? || step.Kill?
  }

  /** The steps of a process that does not have the lock yet. */
  lemma EntryKeepsExclusive(s: State, step: Step, s': State)
    requires Exclusive(s) && Next(s, step, s') && IsEntry(step)
    ensures Exclusive(s')
  {
  }

  /** A process inside moves on, and with the lock released it is outside. */
  lemma InsideMoves(s: State, step: Step, s': State)
    requires Next(s, step, s') && !IsEntry(step)
    ensures step.p in s.pc && Inside(s.pc[step.p]) && s'.pc.Keys == s.pc.Keys
    ensures forall q :: q in s.pc && q != step.p ==> (Inside(s'.pc[q]) <==> Inside(s.pc[q]))
    ensures (s'.locked == s.locked) || (!s'.locked && !Inside(s'.pc[step.p]))
  {
  }

  lemma StepKeepsExclusive(s: State, step: Step, s': State)
    requires Exclusive(s) && Next(s, step, s')
    ensures Exclusive(s')
  {
    if IsEntry(step) {
      EntryKeepsExclusive(s, step, s');
    } else {
      InsideMoves(s, step, s');
    }
  }

  lemma StepKeepsEnds(s: State, step: Step, s': State)
    requires Ends(s) && Next(s, step, s')
    ensures Ends(s')
  {
  }

  lemma StepKeepsInv(s: State, step: Step, s': State)
    requires Inv(s) && Next(s, step, s')
    ensures Inv(s')
  {
    StepKeepsExclusive(s, step, s');
    StepKeepsEnds(s, step, s');
    StepKeepsRing(s, step, s');
  }

  /** A writer gives up on a full pipe while a reader sleeps. */
  ghost predicate Losing(s: State, step: Step) {
    step.WriteFails? && exists q :: q in s.pc && s.pc[q].RSleep?
  }

  lemma AcquireKeepsSleepers(s: State, p: nat, s': State)
    requires Inv(s) && Sleepers(s) && DoAcquire(s, p, s')
    ensures Sleepers(s')
  {
    assert !InWrite(s) && !InRead(s);
  }

  lemma WriterKeepsSleepers(s: State, step: Step, s': State)
    requires Inv(s) && Sleepers(s) && Next(s, step, s') && !Losing(s, step)
    requires step.WriteFails? || step.WriteSleeps? || step.WriteByte? || step.WriteEnds?
    ensures Sleepers(s')
  {
    assert InWrite(s) && !InRead(s) by {
      assert s.pc[step.p].WLoop?;
    }
    if step.WriteByte? {
      assert s'.pc[step.p].WLoop?;
      Wrapping(|s.taken|, |s.written|);
    }
  }

  lemma ReaderKeepsSleepers(s: State, step: Step, s': State)
    requires Inv(s) && Sleepers(s) && Next(s, step, s')
    requires step.ReadFails? || step.ReadSleeps? || step.ReadStarts? || step.ReadByte? || step.ReadEnds?
    ensures Sleepers(s')
  {
    assert !InWrite(s) && Inside(s.pc[step.p]);
    if step.ReadStarts? || step.ReadByte? {
      assert s'.pc[step.p].RCopy?;
      assert InRead(s');
    } else if !step.ReadEnds? {
      assert !InRead(s);
    }
  }

  /** A step that leaves those inside where they are. */
  lemma InsideStay(s: State, s': State)
    requires s'.pc.Keys == s.pc.Keys
    requires forall q :: q in s.pc && Inside(s.pc[q]) ==> s'.pc[q] == s.pc[q]
    ensures InWrite(s) ==> InWrite(s')
    ensures InRead(s) ==> InRead(s')
  {
    if q :| q in s.pc && s.pc[q].WLoop? {
      assert s'.pc[q].WLoop?;
    }
    if q :| q in s.pc && s.pc[q].RCopy? {
      assert s'.pc[q].RCopy?;
    }
  }

  lemma OthersKeepSleepers(s: State, step: Step, s': State)
    requires Inv(s) && Sleepers(s) && Next(s, step, s')
    requires step.Write? || step.Read? || step.Close? || step.Kill?
    ensures Sleepers(s')
  {
    if step.Close? {
      assert !InWrite(s) && !InRead(s);
    } else {
      InsideStay(s, s');
    }
  }

  lemma StepKeepsSleepers(s: State, step: Step, s': State)
    requires Inv(s) && Sleepers(s) && Next(s, step, s') && !Losing(s, step)
    ensures Sleepers(s')
  {
    match step
    case Write(_, _) => OthersKeepSleepers(s, step, s');
    case Read(_, _) => OthersKeepSleepers(s, step, s');
    case Close(_) => OthersKeepSleepers(s, step, s');
    case Kill(_) => OthersKeepSleepers(s, step, s');
    case Acquire(p) => AcquireKeepsSleepers(s, p, s');
    case WriteFails(_) => WriterKeepsSleepers(s, step, s');
    case WriteSleeps(_) => WriterKeepsSleepers(s, step, s');
    case WriteByte(_) => WriterKeepsSleepers(s, step, s');
    case WriteEnds(_) => WriterKeepsSleepers(s, step, s');
    case _ => ReaderKeepsSleepers(s, step, s');
  }

  /** The reader is left asleep on a full pipe, and nobody is inside. */
  lemma LosingLoses(s: State, step: Step, s': State)
    requires Inv(s) && Next(s, step, s') && Losing(s, step)
    ensures !Sleepers(s') && !s'.locked && !Empty(s')
  {
    Wrapping(|s.taken|, |s.written|);
    var q :| q in s.pc && s.pc[q].RSleep?;
    assert s.pc[step.p].WLoop? && s'.pc[q].RSleep?;
    forall r | r in s'.pc ensures !s'.pc[r].WLoop? {
      assert r != step.p ==> s'.pc[r] == s.pc[r];
    }
    assert !InWrite(s');
  }

  /** Exactly one kind of step loses a wakeup. */
  lemma SleepersIff(s: State, step: Step, s': State)
    requires Inv(s) && Sleepers(s) && Next(s, step, s')
    ensures Sleepers(s') <==> !Losing(s, step)
  {
    if Losing(s, step) {
      LosingLoses(s, step, s');
    } else {
      StepKeepsSleepers(s, step, s');
    }
  }

  lemma {:induction false} RunInv(states: seq<State>, steps: seq<Step>, i: nat)
    requires IsRun(states, steps) && i < |states|
    ensures Inv(states[i])
  {
    if 0 < i {
      RunInv(states, steps, i - 1);
      StepKeepsInv(states[i - 1], steps[i - 1], states[i]);
    }
  }

  /** None of the first i steps loses a wakeup. */
  ghost predicate Lossless(states: seq<State>, steps: seq<Step>, i: nat)
    requires i <= |steps| < |states|
  {
    forall k :: 0 <= k < i ==> !Losing(states[k], steps[k])
  }

  /** In every run, kills and closes included, sleepers are as they should be up to
      the first step that loses a wakeup, and are not right after it. */
  lemma {:induction false} RunSleepers(states: seq<State>, steps: seq<Step>, i: nat)
    requires IsRun(states, steps) && i < |states| && Lossless(states, steps, i)
    ensures Sleepers(states[i])
    ensures i < |steps| ==> (Sleepers(states[i + 1]) <==> !Losing(states[i], steps[i]))
  {
    if 0 < i {
      RunSleepers(states, steps, i - 1);
    }
    if i < |steps| {
      RunInv(states, steps, i);
      assert Next(states[i], steps[i], states[i + 1]);
      SleepersIff(states[i], steps[i], states[i + 1]);
    }
  }

  /** As long as no writer has given up while a reader slept, whenever the lock is
      free a sleeping reader has nothing to read and may still get something, and a
      sleeping writer has no room and may still get some; not both sleep. */
  lemma NoLostWakeup(states: seq<State>, steps: seq<Step>, i: nat, p: nat)
    requires IsRun(states, steps) && i < |states| && p in states[i].pc
    requires Lossless(states, steps, i) && !states[i].locked
    ensures states[i].pc[p].RSleep? ==> states[i].taken == states[i].written && states[i].writeopen
    ensures states[i].pc[p].WSleep? ==> |states[i].written| == |states[i].taken| + PIPESIZE && states[i].readopen
    ensures states[i].pc[p].RSleep? ==> forall q :: q in states[i].pc ==> !states[i].pc[q].WSleep?
  {
    var s := states[i];
    RunInv(states, steps, i);
    RunSleepers(states, steps, i);
    Wrapping(|s.taken|, |s.written|);
    assert !InWrite(s) && !InRead(s);
    assert s.written[..|s.written|] == s.written;
  }

  /** Only a writer that was killed gives up while a reader sleeps. */
  lemma LosingIsKilled(s: State, step: Step, s': State)
    requires Inv(s) && Next(s, step, s') && Losing(s, step)
    ensures step.p in s.killed
  {
    var q :| q in s.pc && s.pc[q].RSleep?;
    assert s.readopen;
  }

  lemma {:induction false} KilledGrows(states: seq<State>, steps: seq<Step>, i: nat, j: nat)
    requires IsRun(states, steps) && i <= j < |states|
    ensures states[i].killed <= states[j].killed
    decreases j
  {
    if i < j {
      KilledGrows(states, steps, i, j - 1);
      assert Next(states[j - 1], steps[j - 1], states[j]);
    }
  }

  /** So a run in which nobody was killed loses none. */
  lemma KillFree(states: seq<State>, steps: seq<Step>, i: nat)
    requires IsRun(states, steps) && i < |states| && states[i].killed == {}
    ensures Lossless(states, steps, i)
  {
    forall k | 0 <= k < i ensures !Losing(states[k], steps[k]) {
      RunInv(states, steps, k);
      KilledGrows(states, steps, k, i);
      if Losing(states[k], steps[k]) {
        LosingIsKilled(states[k], steps[k], states[k + 1]);
      }
    }
  }

  // ---------------------------------------------------------------- a wakeup that is lost

  ghost predicate Reachable(s: State) {
    exists states, steps :: IsRun(states, steps) && states[|states| - 1] == s
  }

  lemma OneMore(s: State, step: Step, s': State)
    requires Reachable(s) && Next(s, step, s')
    ensures Reachable(s')
  {
    var states, steps :| IsRun(states, steps) && states[|states| - 1] == s;
    assert IsRun(states + [s'], steps + [step]);
    assert (states + [s'])[|states + [s']| - 1] == s';
  }

  function Zeroes(k: nat): seq<byte> {
    seq(k, _ => 0)
  }

  /** A reader (0) that went to sleep on the empty pipe, and a killed writer (1)
      that has the lock and has written k of its 513 bytes. */
  function Filling(k: nat): State {
    State(Zeroes(PIPESIZE), 0, k, true, true, true,
          map[0 := RSleep(1), 1 := WLoop(Zeroes(PIPESIZE + 1), k)], {1}, Zeroes(k), [])
  }

  function Starting(locked: bool, reader: Pc, writer: Pc): State {
    State(Zeroes(PIPESIZE), 0, 0, true, true, locked, map[0 := reader, 1 := writer], {}, [], [])
  }

  lemma ReaderSleeps()
    ensures Reachable(Starting(false, RSleep(1), Out))
  {
    var s0 := Starting(false, Out, Out);
    assert IsRun([s0], []);
    assert [s0][|[s0]| - 1] == s0;
    OneMore(s0, Read(0, 1), Starting(false, RWait(1), Out));
    OneMore(Starting(false, RWait(1), Out), Acquire(0), Starting(true, RLoop(1), Out));
    OneMore(Starting(true, RLoop(1), Out), ReadSleeps(0), Starting(false, RSleep(1), Out));
  }

  lemma FillingStarts()
    ensures Reachable(Filling(0))
  {
    ReaderSleeps();
    var addr := Zeroes(PIPESIZE + 1);
    OneMore(Starting(false, RSleep(1), Out), Write(1, addr), Starting(false, RSleep(1), WWait(addr, 0)));
    OneMore(Starting(false, RSleep(1), WWait(addr, 0)), Acquire(1), Starting(true, RSleep(1), WLoop(addr, 0)));
    OneMore(Starting(true, RSleep(1), WLoop(addr, 0)), Kill(1), Filling(0));
  }

  lemma {:induction false} FillingReachable(k: nat)
    requires k <= PIPESIZE
    ensures Reachable(Filling(k))
  {
    if k == 0 {
      FillingStarts();
    } else {
      FillingReachable(k - 1);
      var s, s' := Filling(k - 1), Filling(k);
      assert s'.written == s.written + [0];
      assert s'.data == s.data[s.nwrite % PIPESIZE := 0];
      assert s'.pc == s.pc[1 := WLoop(s.pc[1].addr, s.pc[1].i + 1)];
      OneMore(s, WriteByte(1), s');
    }
  }

  /** A writer that is killed returns without waking anyone: a run ends with the
      lock free and a reader asleep on a full pipe. */
  lemma KilledWriterLosesWakeup()
    ensures exists s :: Reachable(s) && !s.locked && 0 in s.pc && s.pc[0].RSleep? &&
                  s.taken == [] && |s.written| == PIPESIZE
  {
    FillingReachable(PIPESIZE);
    var s := Filling(PIPESIZE);
    var s' := s.(locked := false, pc := s.pc[1 := Out]);
    OneMore(s, WriteFails(1), s');
  }
}
