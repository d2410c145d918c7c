/**
  What one call of pipewrite() puts into the pipe and one call of piperead() takes
  out of it, whatever other processes do in between.
*/
module PipeCalls {
  import opened Pipe

  // ---------------------------------------------------------------- who writes and who reads

  /** Only WriteByte adds to what was written, one byte at a time. */
  lemma Appends(s: State, step: Step, s': State)
    requires Next(s, step, s')
    ensures s.written <= s'.written && |s'.written| == |s.written| + if step.WriteByte? then 1 else 0
    ensures s.taken <= s'.taken && |s'.taken| == |s.taken| + if step.ReadByte? then 1 else 0
  {
  }

  /** The bytes that process p added in the steps from k to i. */
  ghost function Sent(states: seq<State>, steps: seq<Step>, p: nat, k: nat, i: nat): seq<byte>
    requires k <= i <= |steps| < |states|
  {
    if i == k then []
    else
      var before, after := states[i - 1].written, states[i].written;
      Sent(states, steps, p, k, i - 1) +
      if steps[i - 1] == WriteByte(p) && |before| <= |after| then after[|before|..] else []
  }

  /** Process p is in pipewrite() of addr and has added `sent`. */
  ghost predicate InWriteOf(s: State, p: nat, addr: seq<byte>, sent: seq<byte>) {
    && p in s.pc && Writing(s.pc[p]) && s.pc[p].addr == addr
    && s.pc[p].i <= |addr| && sent == addr[..s.pc[p].i]
  }

  predicate Returns(step: Step, p: nat) {
    step == WriteFails(p) || step == WriteEnds(p)
  }

  lemma WriteStep(s: State, step: Step, s': State, p: nat, addr: seq<byte>, sent: seq<byte>)
    requires InWriteOf(s, p, addr, sent) && Next(s, step, s') && !Returns(step, p)
    ensures step != WriteByte(p) ==> InWriteOf(s', p, addr, sent)
    ensures step == WriteByte(p) ==>
      |s.written| <= |s'.written| && InWriteOf(s', p, addr, sent + s'.written[|s.written|..])
  {
    if step == WriteByte(p) {
      assert s'.written[|s.written|..] == [addr[s.pc[p].i]];
    }
  }

  lemma WriteBegins(s: State, s': State, p: nat, addr: seq<byte>)
    requires Next(s, Write(p, addr), s')
    ensures InWriteOf(s', p, addr, [])
  {
    assert addr[..0] == [];
  }

  lemma RunNext(states: seq<State>, steps: seq<Step>, i: nat)
    requires IsRun(states, steps) && i < |steps|
    ensures Next(states[i], steps[i], states[i + 1])
  {
  }

  /** Step i of the run keeps what is said of a write of addr by p. */
  ghost predicate WriteGoesOn(states: seq<State>, steps: seq<Step>, p: nat, addr: seq<byte>, k: nat, i: nat)
    requires k <= i < |steps| < |states|
  {
    InWriteOf(states[i], p, addr, Sent(states, steps, p, k, i)) ==>
      InWriteOf(states[i + 1], p, addr, Sent(states, steps, p, k, i + 1))
  }

  lemma RunWriteGoesOn(states: seq<State>, steps: seq<Step>, p: nat, addr: seq<byte>, k: nat, i: nat)
    requires IsRun(states, steps) && k <= i < |steps| && !Returns(steps[i], p)
    ensures WriteGoesOn(states, steps, p, addr, k, i)
  {
    RunNext(states, steps, i);
    var sent := Sent(states, steps, p, k, i);
    if InWriteOf(states[i], p, addr, sent) {
      WriteStep(states[i], steps[i], states[i + 1], p, addr, sent);
    }
  }

  lemma {:induction false} WriteWentOn(states: seq<State>, steps: seq<Step>, p: nat, addr: seq<byte>, k: nat, i: nat)
    requires k <= i <= |steps| < |states| && InWriteOf(states[k], p, addr, [])
    requires forall j :: k <= j < i ==> WriteGoesOn(states, steps, p, addr, k, j)
    ensures InWriteOf(states[i], p, addr, Sent(states, steps, p, k, i))
    decreases i
  {
    if k < i {
      WriteWentOn(states, steps, p, addr, k, i - 1);
      assert WriteGoesOn(states, steps, p, addr, k, i - 1);
    }
  }

  /** In every run, of all bytes that went in since the call, those that p added are
      the first of its buffer, in order. */
  lemma WriteCall(states: seq<State>, steps: seq<Step>, p: nat, addr: seq<byte>, k: nat, i: nat)
    requires IsRun(states, steps) && k < i <= |steps| && steps[k] == Write(p, addr)
    requires forall j :: k < j < i ==> !Returns(steps[j], p)
    ensures InWriteOf(states[i], p, addr, Sent(states, steps, p, k + 1, i))
  {
    RunNext(states, steps, k);
    WriteBegins(states[k], states[k + 1], p, addr);
    var k1 := k + 1;
    forall j | k1 <= j < i ensures WriteGoesOn(states, steps, p, addr, k1, j) {
      RunWriteGoesOn(states, steps, p, addr, k1, j);
    }
    WriteWentOn(states, steps, p, addr, k1, i);
  }

  /** A call that ends has written all of its buffer, one that fails a part of it. */
  lemma WriteReturns(states: seq<State>, steps: seq<Step>, p: nat, addr: seq<byte>, k: nat, i: nat)
    requires IsRun(states, steps) && k < i < |steps| && steps[k] == Write(p, addr)
    requires (forall j :: k < j < i ==> !Returns(steps[j], p)) && Returns(steps[i], p)
    ensures var sent := Sent(states, steps, p, k + 1, i);
      sent <= addr && (sent == addr <==> steps[i] == WriteEnds(p))
  {
    WriteCall(states, steps, p, addr, k, i);
    assert Next(states[i], steps[i], states[i + 1]);
  }

  // ---------------------------------------------------------------- reads

  /** Process p copies bytes out; the pipe was as in s0 when it began. */
  ghost predicate InReadSince(s0: State, s: State, p: nat, n: nat) {
    && p in s.pc && s.pc[p].RCopy? && s.pc[p].n == n && |s.pc[p].buf| <= n
    && s.taken == s0.taken + s.pc[p].buf && s.written == s0.written && s.writeopen == s0.writeopen
  }

  lemma ReadStep(s0: State, s: State, step: Step, s': State, p: nat, n: nat)
    requires Inv(s) && InReadSince(s0, s, p, n) && Next(s, step, s') && step != ReadEnds(p)
    ensures InReadSince(s0, s', p, n)
  {
    assert Inside(s.pc[p]);
    if step.WriteByte? || step.ReadByte? {
      assert Inside(s.pc[step.p]);
      assert step.p == p;
    }
  }

  lemma ReadBegins(s: State, s': State, p: nat)
    requires Next(s, ReadStarts(p), s')
    ensures p in s.pc && s.pc[p].RLoop? && InReadSince(s, s', p, s.pc[p].n)
  {
    assert s.taken + [] == s.taken;
  }

  ghost predicate ReadGoesOn(s0: State, s: State, s': State, p: nat, n: nat) {
    InReadSince(s0, s, p, n) ==> InReadSince(s0, s', p, n)
  }

  lemma RunReadGoesOn(states: seq<State>, steps: seq<Step>, s0: State, p: nat, n: nat, i: nat)
    requires IsRun(states, steps) && i < |steps| && steps[i] != ReadEnds(p)
    ensures ReadGoesOn(s0, states[i], states[i + 1], p, n)
  {
    RunInv(states, steps, i);
    RunNext(states, steps, i);
    if InReadSince(s0, states[i], p, n) {
      ReadStep(s0, states[i], steps[i], states[i + 1], p, n);
    }
  }

  lemma {:induction false} ReadWentOn(states: seq<State>, s0: State, p: nat, n: nat, k: nat, i: nat)
    requires k <= i < |states| && InReadSince(s0, states[k], p, n)
    requires forall j :: k <= j < i ==> ReadGoesOn(s0, states[j], states[j + 1], p, n)
    ensures InReadSince(s0, states[i], p, n)
    decreases i
  {
    if k < i {
      ReadWentOn(states, s0, p, n, k, i - 1);
      assert ReadGoesOn(s0, states[i - 1], states[i - 1 + 1], p, n);
    }
  }

  /** In every run a process that copies bytes out takes the next ones, and nobody
      else reads or writes. */
  lemma ReadCall(states: seq<State>, steps: seq<Step>, p: nat, k: nat, i: nat)
    requires IsRun(states, steps) && k < i <= |steps| && steps[k] == ReadStarts(p)
    requires forall j :: k < j < i ==> steps[j] != ReadEnds(p)
    ensures p in states[k].pc && states[k].pc[p].RLoop?
    ensures InReadSince(states[k], states[i], p, states[k].pc[p].n)
  {
    RunNext(states, steps, k);
    ReadBegins(states[k], states[k + 1], p);
    var n := states[k].pc[p].n;
    forall j | k + 1 <= j < i ensures ReadGoesOn(states[k], states[j], states[j + 1], p, n) {
      RunReadGoesOn(states, steps, states[k], p, n, j);
    }
    ReadWentOn(states, states[k], p, n, k + 1, i);
  }

  /** A call that ends has given its caller the next n bytes of what was written, or
      all there were; none of n bytes only when no writer is left. */
  lemma ReadReturns(states: seq<State>, steps: seq<Step>, p: nat, k: nat, i: nat)
    requires IsRun(states, steps) && k < i < |steps| && steps[k] == ReadStarts(p) && steps[i] == ReadEnds(p)
    requires forall j :: k < j < i ==> steps[j] != ReadEnds(p)
    ensures p in states[k].pc && states[k].pc[p].RLoop? && p in states[i].pc && states[i].pc[p].RCopy?
    ensures var r, w, n := |states[k].taken|, |states[k].written|, states[k].pc[p].n;
      r <= w && states[i].pc[p].buf == states[k].written[r..if r + n <= w then r + n else w]
    ensures states[i].pc[p].buf == [] && 0 < states[k].pc[p].n ==> !states[i].writeopen
  {
    ReadCall(states, steps, p, k, i);
    FirstInFirstOut(states, steps, k);
    FirstInFirstOut(states, steps, i);
    assert Next(states[i], steps[i], states[i + 1]);
    assert Next(states[k], steps[k], states[k + 1]);
    var r, w, m := |states[k].taken|, |states[k].written|, |states[i].pc[p].buf|;
    Wrapping(r + m, w);
    assert states[i].taken == states[k].written[..r + m];
    assert states[i].pc[p].buf == states[i].taken[r..];
  }

  /** A call fails for a reason: a read for a process that was killed, with nothing to
      read and a writer left; a write of a process that was killed or has no reader, with
      no room. */
  lemma CallFails(states: seq<State>, steps: seq<Step>, i: nat, p: nat)
    requires IsRun(states, steps) && i < |steps|
    ensures steps[i] == ReadFails(p) ==>
      p in states[i].killed && states[i].writeopen && states[i].taken == states[i].written
    ensures steps[i] == WriteFails(p) ==>
      (p in states[i].killed || !states[i].readopen) && |states[i].written| == |states[i].taken| + PIPESIZE
  {
    RunNext(states, steps, i);
    FirstInFirstOut(states, steps, i);
    Wrapping(|states[i].taken|, |states[i].written|);
  }

  // ---------------------------------------------------------------- the lock comes free

  ghost predicate CanStep(s: State, p: nat) {
    exists step, s' :: !IsEntry(step) && step.p == p && Next(s, step, s')
  }

  lemma WriterCan(s: State, p: nat)
    requires |s.data| == PIPESIZE && p in s.pc && s.pc[p].WLoop?
    ensures CanStep(s, p)
  {
    var pc := s.pc[p];
    if |pc.addr| <= pc.i {
      assert Next(s, WriteEnds(p), s.(locked := false, pc := WakeReaders(s.pc)[p := Out]));
    } else if !Full(s) {
      assert Next(s, WriteByte(p),
                  s.(data := s.data[s.nwrite % PIPESIZE := pc.addr[pc.i]], nwrite := (s.nwrite + 1) % UINT,
                     written := s.written + [pc.addr[pc.i]], pc := s.pc[p := WLoop(pc.addr, pc.i + 1)]));
    } else if s.readopen {
      assert Next(s, WriteSleeps(p), s.(locked := false, pc := WakeReaders(s.pc)[p := WSleep(pc.addr, pc.i)]));
    } else {
      assert Next(s, WriteFails(p), s.(locked := false, pc := s.pc[p := Out]));
    }
  }

  lemma ReaderCan(s: State, p: nat)
    requires |s.data| == PIPESIZE && p in s.pc && (s.pc[p].RLoop? || s.pc[p].RCopy?)
    ensures CanStep(s, p)
  {
    var pc := s.pc[p];
    if pc.RCopy? {
      if pc.n <= |pc.buf| || Empty(s) {
        assert Next(s, ReadEnds(p), s.(locked := false, pc := WakeWriters(s.pc)[p := Out]));
      } else {
        var b := s.data[s.nread % PIPESIZE];
        assert Next(s, ReadByte(p), s.(nread := (s.nread + 1) % UINT, taken := s.taken + [b],
                                       pc := s.pc[p := RCopy(pc.n, pc.buf + [b])]));
      }
    } else if Empty(s) && s.writeopen {
      assert Next(s, ReadSleeps(p), s.(locked := false, pc := s.pc[p := RSleep(pc.n)]));
    } else {
      assert Next(s, ReadStarts(p), s.(pc := s.pc[p := RCopy(pc.n, [])]));
    }
  }

  /** What the process with the lock still has to do. */
  function Left(pc: Pc): nat {
    match pc
    case WLoop(addr, i) => if i <= |addr| then |addr| - i + 1 else 1
    case RLoop(n) => n + 2
    case RCopy(n, buf) => if |buf| <= n then n - |buf| + 1 else 1
    case _ => 0
  }

  /** In every run a process that has the lock can go on, and each of its steps brings it
      nearer to the release. */
  lemma HolderGoesOn(states: seq<State>, steps: seq<Step>, i: nat, p: nat)
    requires IsRun(states, steps) && i < |states| && p in states[i].pc && Inside(states[i].pc[p])
    ensures CanStep(states[i], p)
    ensures i < |steps| && !IsEntry(steps[i]) && steps[i].p == p ==>
      p in states[i + 1].pc && Left(states[i + 1].pc[p]) < Left(states[i].pc[p]) &&
      (Left(states[i + 1].pc[p]) == 0 ==> !states[i + 1].locked)
  {
    RunInv(states, steps, i);
    if states[i].pc[p].WLoop? {
      WriterCan(states[i], p);
    } else {
      ReaderCan(states[i], p);
    }
    if i < |steps| && !IsEntry(steps[i]) && steps[i].p == p {
      RunNext(states, steps, i);
      ComesNearer(states[i], steps[i], states[i + 1], p);
    }
  }

  lemma ComesNearer(s: State, step: Step, s': State, p: nat)
    requires Next(s, step, s') && !IsEntry(step) && step.p == p
    ensures p in s.pc && p in s'.pc && Left(s'.pc[p]) < Left(s.pc[p]) && (Left(s'.pc[p]) == 0 ==> !s'.locked)
  {
  }

  // ---------------------------------------------------------------- a closed end

  /** Whether the ends stay closed, and what that means. */
  ghost predicate StaysClosed(s: State, s': State) {
    && (!s.writeopen ==> !s'.writeopen && s'.written == s.written)
    && (!s.readopen ==> !s'.readopen && s'.taken == s.taken)
  }

  lemma StepStaysClosed(s: State, step: Step, s': State)
    requires Inv(s) && Next(s, step, s')
    ensures StaysClosed(s, s')
    ensures step == Close(true) ==> !s'.writeopen
    ensures step == Close(false) ==> !s'.readopen
  {
    if step.WriteByte? {
      assert Writing(s.pc[step.p]);
    } else if step.ReadByte? {
      assert Reading(s.pc[step.p]);
    }
  }

  lemma {:induction false} ClosedSince(states: seq<State>, k: nat, i: nat)
    requires k <= i < |states| && forall j :: k <= j < i ==> StaysClosed(states[j], states[j + 1])
    ensures StaysClosed(states[k], states[i])
    decreases i
  {
    if k < i {
      var j := i - 1;
      ClosedSince(states, k, j);
      assert StaysClosed(states[j], states[j + 1]);
    }
  }

  /** In every run: after the write end was closed nothing is written any more, and after
      the read end was closed nothing is read. */
  lemma ClosedForGood(states: seq<State>, steps: seq<Step>, k: nat, i: nat)
    requires IsRun(states, steps) && k < i < |states|
    ensures steps[k] == Close(true) ==> !states[i].writeopen && states[i].written == states[k + 1].written
    ensures steps[k] == Close(false) ==> !states[i].readopen && states[i].taken == states[k + 1].taken
  {
    RunInv(states, steps, k);
    RunNext(states, steps, k);
    StepStaysClosed(states[k], steps[k], states[k + 1]);
    forall j | k + 1 <= j < i
      ensures StaysClosed(states[j], states[j + 1])
    {
      RunInv(states, steps, j);
      RunNext(states, steps, j);
      StepStaysClosed(states[j], steps[j], states[j + 1]);
    }
    ClosedSince(states, k + 1, i);
  }
}
