/**
  How large the log area and how small the cache must be.  log_write() tests the size
  of the log before it takes the log lock, so two operations can pass the test
  together and log one block more than the area has slots.  With as many buffers as
  the area has blocks, write_log() then stops for want of a buffer and the disk stays
  safe; with more, it overwrites the block behind the area, and recovery does not
  bring it back.  Where the area is large enough for that not to happen, the same race
  takes log.lh.block past its end if an operation logs MAXOPBLOCKS + 1 blocks, as
  filewrite() can, and there is a buffer more than the array has entries.
*/
module LogSizing {
  import opened Options
  import opened LogProtocol
  import opened LogSafety
  import opened LogBounds
  import opened LogTheorems

  /** With a cache of nbuf buffers. */
  ghost predicate Reachable(c: Config, nbuf: nat, s: State) {
    exists states: seq<State>, steps: seq<Step> ::
      IsRun(c, states, steps) && |states[0].cache| == nbuf && states[|steps|] == s
  }

  lemma Extend(c: Config, nbuf: nat, s: State, st: Step, s': State)
    requires Reachable(c, nbuf, s) && Next(c, s, st, s')
    ensures Reachable(c, nbuf, s')
  {
    var states: seq<State>, steps: seq<Step> :|
      IsRun(c, states, steps) && |states[0].cache| == nbuf && states[|steps|] == s;
    assert IsRun(c, states + [s'], steps + [st]);
    assert (states + [s'])[|steps + [st]|] == s';
  }

  function Filled(v: int): (b: Block)
    ensures b[0] == v
  {
    seq(WORDS, _ => v)
  }

  /** A buffer that bget() may take. */
  ghost predicate IsSpare(b: Buf) {
    b == Buf(b.tag, b.valid, false, b.data, 0, {}, None, false)
  }

  /** The buffer of a block that was changed, logged and released. */
  ghost function Pinned(b: int): Buf {
    Buf(Some(b), true, true, Filled(1), 0, {}, None, false)
  }

  /** The buffer of a block that process p has changed and holds. */
  ghost function Changed(b: int, p: Pid): Buf {
    Buf(Some(b), true, false, Filled(1), 1, {p}, Some(p), true)
  }

  /** The k-th home block that the run below logs; one home block lies between
      these and the log. */
  function Target(c: Config, k: int): int {
    c.start + c.size + 1 + k
  }

  ghost predicate AreTargets(c: Config, lh: seq<int>) {
    forall k :: 0 <= k < |lh| ==> lh[k] == Target(c, k)
  }

  ghost predicate PinnedTo(c: Config, cache: seq<Buf>, n: nat) {
    n <= |cache| && forall i :: 0 <= i < n ==> cache[i] == Pinned(Target(c, i))
  }

  /** Buffers that can be taken; none but the first was ever used. */
  ghost predicate SpareFrom(cache: seq<Buf>, n: nat) {
    forall i :: n <= i < |cache| ==> IsSpare(cache[i]) && (0 < i ==> cache[i].tag.None?)
  }

  ghost predicate TagsBelow(cache: seq<Buf>, b: int) {
    forall i :: 0 <= i < |cache| && cache[i].tag.Some? ==> cache[i].tag.value < b
  }

  /** Only the header block of the disk was ever written, and it is empty. */
  ghost predicate Blank(c: Config, s: State) {
    && |s.disk| == |s.committed| == c.nblocks
    && (forall b :: 0 <= b < c.nblocks ==> s.committed[b] == Filled(0) && (b != c.start ==> s.disk[b] == Filled(0)))
    && c.start < c.nblocks && s.disk[c.start][0] == 0
  }

  ghost function Turns(n: nat): map<Pid, Pc> {
    map[0 := InOp((n + 2) / 3, false), 1 := InOp((n + 1) / 3, false), 2 := InOp(n / 3, false)]
  }

  lemma NextTurn(n: nat)
    ensures n % 3 in Turns(n)
    ensures Turns(n)[n % 3 := InOp(Turns(n)[n % 3].spent + 1, false)] == Turns(n + 1)
  {
  }

  /** Three operations have logged n blocks, taking turns, and released them. */
  ghost predicate Loaded(c: Config, nbuf: nat, s: State, n: nat) {
    && Reachable(c, nbuf, s) && Blank(c, s) && |s.cache| == nbuf
    && s.up && !s.committing && s.outstanding == 3
    && |s.lh| == n && AreTargets(c, s.lh) && s.procs == Turns(n)
    && PinnedTo(c, s.cache, n) && SpareFrom(s.cache, n) && TagsBelow(s.cache, Target(c, n))
  }

  // ---------------------------------------------------------------- pieces of runs

  /** Process p brings block b into the spare buffer i and locks it. */
  lemma Fetch(c: Config, nbuf: nat, s: State, p: Pid, i: nat, b: int) returns (s': State)
    requires Reachable(c, nbuf, s) && Active(s, p)
    requires i < |s.cache| && IsSpare(s.cache[i]) && |s.disk| == c.nblocks && 0 <= b < c.nblocks
    requires forall j :: 0 <= j < |s.cache| ==> s.cache[j].tag != Some(b)
    ensures Reachable(c, nbuf, s')
    ensures s' == s.(cache := s.cache[i := Buf(Some(b), true, false, s.disk[b], 1, {p}, Some(p), false)])
  {
    var s1 := s.(cache := s.cache[i := s.cache[i].(tag := Some(b), valid := false, refcnt := 1, users := {p})]);
    Extend(c, nbuf, s, BgetMiss(p, i, b), s1);
    var s2 := s1.(cache := s1.cache[i := s1.cache[i].(holder := Some(p))]);
    Extend(c, nbuf, s1, Lock(p, i), s2);
    s' := s2.(cache := s2.cache[i := s2.cache[i].(valid := true, data := s2.disk[b])]);
    Extend(c, nbuf, s2, Fill(p, i), s');
  }

  /** Process p locks buffer i, which nobody uses and which is valid. */
  lemma Hold(c: Config, nbuf: nat, s: State, p: Pid, i: nat) returns (s': State)
    requires Reachable(c, nbuf, s) && Active(s, p) && i < |s.cache| && s.cache[i].tag.Some?
    requires s.cache[i].refcnt == 0 && s.cache[i].users == {} && s.cache[i].holder == None
    ensures Reachable(c, nbuf, s')
    ensures s' == s.(cache := s.cache[i := s.cache[i].(refcnt := 1, users := {p}, holder := Some(p))])
  {
    assert s.cache[i].users + {p} == {p};
    var s1 := s.(cache := s.cache[i := s.cache[i].(refcnt := 1, users := {p})]);
    Extend(c, nbuf, s, BgetHit(p, i, s.cache[i].tag.value), s1);
    s' := s1.(cache := s1.cache[i := s1.cache[i].(holder := Some(p))]);
    Extend(c, nbuf, s1, Lock(p, i), s');
  }

  /** brelse() by the only user. */
  lemma Release(c: Config, nbuf: nat, s: State, p: Pid, i: nat) returns (s': State)
    requires Reachable(c, nbuf, s) && i < |s.cache| && s.cache[i].holder == Some(p) && !s.cache[i].unlogged
    requires s.cache[i].refcnt == 1 && s.cache[i].users == {p}
    ensures Reachable(c, nbuf, s')
    ensures s' == s.(cache := s.cache[i := s.cache[i].(refcnt := 0, users := {}, holder := None)])
  {
    var s1 := s.(cache := s.cache[i := s.cache[i].(holder := None)]);
    Extend(c, nbuf, s, Unlock(p, i), s1);
    assert s1.cache[i].users - {p} == {};
    s' := s1.(cache := s1.cache[i := s1.cache[i].(refcnt := 0, users := {})]);
    Extend(c, nbuf, s1, Drop(p, i), s');
  }

  /** Process p reads home block b through buffer i and changes it. */
  lemma Change(c: Config, nbuf: nat, s: State, p: Pid, i: nat, b: int) returns (s': State)
    requires Reachable(c, nbuf, s) && s.up && p in s.procs && s.procs[p].InOp? && IsHome(c, b)
    requires i < |s.cache| && IsSpare(s.cache[i]) && |s.disk| == c.nblocks
    requires forall j :: 0 <= j < |s.cache| ==> s.cache[j].tag != Some(b)
    ensures Reachable(c, nbuf, s')
    ensures s' == s.(cache := s.cache[i := Changed(b, p)])
  {
    var s1 := Fetch(c, nbuf, s, p, i, b);
    s' := s1.(cache := s1.cache[i := s1.cache[i].(data := Filled(1), unlogged := true)]);
    Extend(c, nbuf, s1, Modify(p, i, Filled(1)), s');
  }

  lemma Check(c: Config, nbuf: nat, s: State, p: Pid) returns (s': State)
    requires Reachable(c, nbuf, s) && p in s.procs && s.procs[p].InOp?
    requires |s.lh| < LOGSIZE && |s.lh| < c.size - 1
    ensures Reachable(c, nbuf, s') && s' == s.(procs := s.procs[p := InOp(s.procs[p].spent, true)])
  {
    s' := s.(procs := s.procs[p := InOp(s.procs[p].spent, true)]);
    Extend(c, nbuf, s, LogCheck(p), s');
  }

  /** The rest of log_write(), and brelse(). */
  lemma Append(c: Config, nbuf: nat, s: State, p: Pid, i: nat, b: int) returns (s': State)
    requires Reachable(c, nbuf, s) && p in s.procs && s.procs[p].InOp? && s.procs[p].checked
    requires |s.lh| < LOGSIZE
    requires i < |s.cache| && s.cache[i] == Changed(b, p)
    requires IsHome(c, b) && b !in s.lh
    ensures Reachable(c, nbuf, s')
    ensures s' == s.(cache := s.cache[i := Pinned(b)], lh := s.lh + [b],
                     procs := s.procs[p := InOp(s.procs[p].spent + 1, false)])
  {
    var s1 := s.(cache := s.cache[i := s.cache[i].(dirty := true, unlogged := false)],
                 lh := s.lh + [b], procs := s.procs[p := InOp(s.procs[p].spent + 1, false)]);
    Extend(c, nbuf, s, LogAppend(p, i), s1);
    s' := Release(c, nbuf, s1, p, i);
  }

  /** log_write() and brelse() of a changed block. */
  lemma LogAndRelease(c: Config, nbuf: nat, s: State, p: Pid, i: nat, b: int) returns (s': State)
    requires Reachable(c, nbuf, s) && p in s.procs && s.procs[p].InOp?
    requires i < |s.cache| && s.cache[i] == Changed(b, p)
    requires |s.lh| < LOGSIZE && |s.lh| < c.size - 1 && IsHome(c, b) && b !in s.lh
    ensures Reachable(c, nbuf, s')
    ensures s' == s.(cache := s.cache[i := Pinned(b)], lh := s.lh + [b],
                     procs := s.procs[p := InOp(s.procs[p].spent + 1, false)])
  {
    var s1 := Check(c, nbuf, s, p);
    s' := Append(c, nbuf, s1, p, i, b);
    assert s'.procs == s.procs[p := InOp(s.procs[p].spent + 1, false)];
  }

  // ---------------------------------------------------------------- the run up to the race

  /** The device has a log area, with a slot, and enough blocks behind it. */
  predicate Roomy(c: Config) {
    2 <= c.size && Target(c, LOGSIZE) < c.nblocks
  }

  /** The next operation may log the n-th block, and there is a buffer for it. */
  predicate Loads(c: Config, nbuf: nat, n: nat) {
    Roomy(c) && n < c.size && n <= LOGSIZE && n <= nbuf && 0 < nbuf
  }

  /** The area is too small for a transaction that the buffers can hold. */
  predicate Tight(c: Config, nbuf: nat) {
    Roomy(c) && c.size <= LOGSIZE && c.size <= nbuf
  }

  lemma Boot(c: Config, nbuf: nat) returns (s: State)
    requires Roomy(c) && 0 < nbuf
    ensures Reachable(c, nbuf, s)
    ensures s == Booting(s.disk, s.disk, nbuf, {0, 1, 2}, 0)
    ensures s.disk == seq(c.nblocks, _ => Filled(0))
  {
    var disk: seq<Block> := seq(c.nblocks, _ => Filled(0));
    var pids: set<Pid> := {0, 1, 2};
    s := Booting(disk, disk, nbuf, pids, 0);
    assert Init(c, s);
    var none: seq<Step> := [];
    assert IsRun(c, [s], none) && [s][|none|] == s;
  }

  /** recover_from_log() in buffer 0, which it releases. */
  lemma Recover(c: Config, nbuf: nat) returns (s: State)
    requires Roomy(c) && 0 < nbuf
    ensures Reachable(c, nbuf, s) && Blank(c, s) && |s.cache| == nbuf
    ensures s.up && !s.committing && s.outstanding == 0 && s.lh == []
    ensures s.procs == map[0 := Idle, 1 := Idle, 2 := Idle]
    ensures SpareFrom(s.cache, 0) && TagsBelow(s.cache, Target(c, 0))
  {
    var s0 := Boot(c, nbuf);
    var s1 := ReadHeader(c, nbuf, s0);
    s := ClearHeader(c, nbuf, s1);
    BlankAfter(c, s0.disk, s.disk, s);
    assert s.procs == map[0 := Idle, 1 := Idle, 2 := Idle];
    assert s.cache == s0.cache[0 := s.cache[0]];
  }

  lemma BlankAfter(c: Config, d0: seq<Block>, d: seq<Block>, s: State)
    requires d0 == seq(c.nblocks, _ => Filled(0)) && c.start < c.nblocks && |d| == c.nblocks
    requires d == d0[c.start := d[c.start]] && d[c.start][0] == 0
    requires s.disk == d && s.committed == d0
    ensures Blank(c, s)
  {
  }

  lemma ReadHeader(c: Config, nbuf: nat, s: State) returns (s': State)
    requires Roomy(c) && 0 < nbuf && Reachable(c, nbuf, s) && s == Booting(s.disk, s.disk, nbuf, {0, 1, 2}, 0)
    requires s.disk == seq(c.nblocks, _ => Filled(0))
    ensures Reachable(c, nbuf, s') && 0 < |s.cache| && 0 in s.procs && s.procs[0].Worker?
    ensures s' == s.(cache := s.cache[0 := Buf(Some(c.start), true, false, Filled(0), 1, {0}, Some(0), false)],
                     procs := AtPhase(s, 0, Install(0)))
  {
    var s1 := Fetch(c, nbuf, s, 0, 0, c.start);
    assert s1.disk[c.start] == Filled(0);
    s' := s1.(lh := [], procs := AtPhase(s1, 0, Install(0)));
    assert Head(Filled(0)) == [];
    Extend(c, nbuf, s1, ReadHeadStep(0, 0), s');
  }

  lemma ClearHeader(c: Config, nbuf: nat, s: State) returns (s': State)
    requires Reachable(c, nbuf, s) && c.start < |s.disk| && At(s, 0, Install(0)) && s.procs[0].recovering && s.lh == []
    requires 0 < |s.cache| && s.cache[0] == Buf(Some(c.start), true, false, s.cache[0].data, 1, {0}, Some(0), false)
    ensures Reachable(c, nbuf, s') && c.start < |s'.disk| && 0 < |s'.cache| && IsSpare(s'.cache[0])
    ensures s'.cache[0].tag == Some(c.start) && s'.disk[c.start][0] == 0
    ensures s' == s.(disk := s.disk[c.start := s'.disk[c.start]], cache := s.cache[0 := s'.cache[0]],
                     up := true, procs := s.procs[0 := Idle])
  {
    var head := EncodeHead(s.cache[0].data, []);
    var s1 := s.(disk := s.disk[c.start := head], cache := s.cache[0 := s.cache[0].(data := head, dirty := false)],
                 lh := [], up := true, procs := s.procs[0 := Idle]);
    Extend(c, nbuf, s, ClearStep(0, 0), s1);
    s' := Release(c, nbuf, s1, 0, 0);
  }

  lemma StartOps(c: Config, nbuf: nat) returns (s: State)
    requires Roomy(c) && 0 < nbuf
    ensures Loaded(c, nbuf, s, 0)
  {
    var s0 := Recover(c, nbuf);
    var s1 := s0.(outstanding := 1, procs := s0.procs[0 := InOp(0, false)]);
    Extend(c, nbuf, s0, BeginOp(0), s1);
    var s2 := s1.(outstanding := 2, procs := s1.procs[1 := InOp(0, false)]);
    Extend(c, nbuf, s1, BeginOp(1), s2);
    s := s2.(outstanding := 3, procs := s2.procs[2 := InOp(0, false)]);
    Extend(c, nbuf, s2, BeginOp(2), s);
  }

  /** Process p changes, logs and releases home block b in buffer i. */
  lemma LogBlock(c: Config, nbuf: nat, s: State, p: Pid, i: nat, b: int) returns (s': State)
    requires Reachable(c, nbuf, s) && s.up && p in s.procs && s.procs[p].InOp?
    requires i < |s.cache| && IsSpare(s.cache[i]) && |s.disk| == c.nblocks && IsHome(c, b) && b !in s.lh
    requires |s.lh| < LOGSIZE && |s.lh| < c.size - 1 && forall j :: 0 <= j < |s.cache| ==> s.cache[j].tag != Some(b)
    ensures Reachable(c, nbuf, s')
    ensures s' == s.(cache := s.cache[i := Pinned(b)], lh := s.lh + [b],
                     procs := s.procs[p := InOp(s.procs[p].spent + 1, false)])
  {
    var s1 := Change(c, nbuf, s, p, i, b);
    s' := LogAndRelease(c, nbuf, s1, p, i, b);
    assert s'.cache == s.cache[i := Pinned(b)];
  }

  lemma PinNext(c: Config, cache: seq<Buf>, n: nat, cache': seq<Buf>)
    requires n < |cache| && PinnedTo(c, cache, n) && SpareFrom(cache, n) && TagsBelow(cache, Target(c, n))
    requires cache' == cache[n := Pinned(Target(c, n))]
    ensures PinnedTo(c, cache', n + 1) && SpareFrom(cache', n + 1) && TagsBelow(cache', Target(c, n + 1))
  {
  }

  /** The next process logs the next block through the next buffer. */
  lemma LoadOne(c: Config, nbuf: nat, s: State, n: nat) returns (s': State)
    requires Loads(c, nbuf, n + 1) && Loaded(c, nbuf, s, n)
    ensures Loaded(c, nbuf, s', n + 1)
  {
    NextTurn(n);
    s' := LogBlock(c, nbuf, s, n % 3, n, Target(c, n));
    PinNext(c, s.cache, n, s'.cache);
  }

  lemma {:induction false} Load(c: Config, nbuf: nat, n: nat) returns (s: State)
    requires Loads(c, nbuf, n)
    ensures Loaded(c, nbuf, s, n)
  {
    if n == 0 {
      s := StartOps(c, nbuf);
    } else {
      s := Load(c, nbuf, n - 1);
      s := LoadOne(c, nbuf, s, n - 1);
    }
  }

  /** After the race: more blocks are logged than the area has slots. */
  ghost predicate Raced(c: Config, nbuf: nat, s: State) {
    && Reachable(c, nbuf, s) && Blank(c, s) && |s.cache| == nbuf
    && s.up && |s.lh| == c.size && AreTargets(c, s.lh)
    && PinnedTo(c, s.cache, c.size) && SpareFrom(s.cache, c.size) && TagsBelow(s.cache, Target(c, c.size))
  }

  /** Operations 1 and 2 have both passed the test when one slot is left, */
  lemma BothPass(c: Config, nbuf: nat, n: nat) returns (s0: State, s: State)
    requires Tight(c, nbuf) && n == c.size - 2
    ensures Loaded(c, nbuf, s0, n) && Reachable(c, nbuf, s) && n + 1 < |s0.cache|
    ensures s == s0.(cache := s0.cache[n := Changed(Target(c, n), 1)][n + 1 := Changed(Target(c, n + 1), 2)],
                     procs := s0.procs[1 := InOp((n + 1) / 3, true)][2 := InOp(n / 3, true)])
  {
    s0 := Load(c, nbuf, n);
    s := Change(c, nbuf, s0, 1, n, Target(c, n));
    s := Change(c, nbuf, s, 2, n + 1, Target(c, n + 1));
    s := Check(c, nbuf, s, 1);
    s := Check(c, nbuf, s, 2);
  }

  /** and then both append. */
  lemma BothAppend(c: Config, nbuf: nat, n: nat) returns (s0: State, s: State)
    requires Tight(c, nbuf) && n == c.size - 2
    ensures Loaded(c, nbuf, s0, n) && Reachable(c, nbuf, s) && n + 1 < |s0.cache|
    ensures s == s0.(cache := s0.cache[n := Pinned(Target(c, n))][n + 1 := Pinned(Target(c, n + 1))],
                     lh := s0.lh + [Target(c, n)] + [Target(c, n + 1)], procs := s.procs)
    ensures s.procs.Keys == {0, 1, 2} && forall p :: p in s.procs ==> s.procs[p].InOp?
  {
    var s1, s2;
    s0, s1 := BothPass(c, nbuf, n);
    s2 := Append(c, nbuf, s1, 1, n, Target(c, n));
    s := Append(c, nbuf, s2, 2, n + 1, Target(c, n + 1));
    UpdateTwice(s0.cache, n, s1.cache[n], s1.cache[n + 1], Pinned(Target(c, n)), Pinned(Target(c, n + 1)));
  }

  lemma UpdateTwice(cache: seq<Buf>, n: nat, a: Buf, b: Buf, a': Buf, b': Buf)
    requires n + 1 < |cache|
    ensures cache[n := a][n + 1 := b][n := a'][n + 1 := b'] == cache[n := a'][n + 1 := b']
  {
  }

  lemma RacePastTheEnd(c: Config, nbuf: nat) returns (s: State)
    requires Tight(c, nbuf)
    ensures Raced(c, nbuf, s) && !s.committing && s.outstanding == 3
    ensures s.procs.Keys == {0, 1, 2} && forall p :: p in s.procs ==> s.procs[p].InOp?
  {
    var n := c.size - 2;
    var s0;
    s0, s := BothAppend(c, nbuf, n);
    var cache := s0.cache[n := Pinned(Target(c, n))];
    PinNext(c, s0.cache, n, cache);
    PinNext(c, cache, n + 1, s.cache);
  }

  ghost predicate SlotsInArea(c: Config, s: State) {
    forall k :: 0 <= k < |s.lh| ==> Slot(c, k) < c.start + c.size
  }

  // ---------------------------------------------------------------- what follows

  /** commit() has copied t blocks to their slots; buffer c.size is for the slots. */
  ghost predicate Copied(c: Config, nbuf: nat, s: State, t: nat) {
    && Reachable(c, nbuf, s) && |s.disk| == |s.committed| == c.nblocks && |s.cache| == nbuf
    && s.up && |s.lh| == c.size && AreTargets(c, s.lh) && t < c.size && At(s, 0, WriteLog(t))
    && PinnedTo(c, s.cache, c.size) && c.size < nbuf && IsSpare(s.cache[c.size])
    && (forall i :: c.size <= i < |s.cache| && s.cache[i].tag.Some? ==> s.cache[i].tag.value < Slot(c, t))
    && (forall b :: 0 <= b < c.nblocks ==> s.committed[b] == Filled(0))
    && c.start < c.nblocks && s.disk[c.start][0] == 0
  }

  /** The three operations end, and the last of them commits. */
  lemma EndOps(c: Config, nbuf: nat, s: State) returns (s': State)
    requires Tight(c, nbuf) && Raced(c, nbuf, s) && !s.committing && s.outstanding == 3
    requires s.procs.Keys == {0, 1, 2} && forall p :: p in s.procs ==> s.procs[p].InOp?
    ensures Raced(c, nbuf, s') && At(s', 0, WriteLog(0))
  {
    var s1 := s.(outstanding := 2, procs := WakeAll(s.procs[1 := Idle]));
    Extend(c, nbuf, s, EndOp(1), s1);
    var s2 := s1.(outstanding := 1, procs := WakeAll(s1.procs[2 := Idle]));
    Extend(c, nbuf, s1, EndOp(2), s2);
    s' := s2.(outstanding := 0, committing := true, procs := s2.procs[0 := Worker(false, WriteLog(0))]);
    Extend(c, nbuf, s2, EndOp(0), s');
  }

  /** With as many buffers as the area has blocks, all are pinned: write_log() cannot
      read a slot and bget() panics. */
  lemma CommitHasNoBuffer(c: Config) returns (s: State)
    requires Tight(c, c.size)
    ensures Reachable(c, c.size, s) && At(s, 0, WriteLog(0)) && 0 < |s.lh|
    ensures forall i :: 0 <= i < |s.cache| ==> s.cache[i].tag != Some(Slot(c, 0))
    ensures forall p, i, b, s' :: !DoBgetMiss(c, s, p, i, b, s')
  {
    s := RacePastTheEnd(c, c.size);
    s := EndOps(c, c.size, s);
    assert forall i :: 0 <= i < |s.cache| ==> s.cache[i] == Pinned(Target(c, i));
  }

  /** A buffer that process 0 holds. */
  ghost function Held(b: int, data: Block): Buf {
    Buf(Some(b), true, false, data, 1, {0}, Some(0), false)
  }

  /** The worker reads slot t and block t, */
  lemma CopyReads(c: Config, nbuf: nat, s: State, t: nat) returns (s': State)
    requires Copied(c, nbuf, s, t) && Slot(c, t) < c.nblocks
    ensures Reachable(c, nbuf, s')
    ensures s' == s.(cache := s.cache[c.size := Held(Slot(c, t), s.disk[Slot(c, t)])]
                                     [t := s.cache[t].(refcnt := 1, users := {0}, holder := Some(0))])
  {
    assert forall j :: 0 <= j < |s.cache| ==> s.cache[j].tag != Some(Slot(c, t));
    var s1 := Fetch(c, nbuf, s, 0, c.size, Slot(c, t));
    s' := Hold(c, nbuf, s1, 0, t);
  }

  /** writes the slot, */
  lemma CopyWrites(c: Config, nbuf: nat, s: State, t: nat) returns (s': State)
    requires Copied(c, nbuf, s, t) && Slot(c, t) < c.nblocks
    ensures Reachable(c, nbuf, s')
    ensures s' == s.(disk := s.disk[Slot(c, t) := Filled(1)],
                     cache := s.cache[c.size := Held(Slot(c, t), Filled(1))]
                                     [t := s.cache[t].(refcnt := 1, users := {0}, holder := Some(0))],
                     procs := AtPhase(s, 0, if t + 1 < |s.lh| then WriteLog(t + 1) else WriteHead))
  {
    var to, b := c.size, Slot(c, t);
    var s1 := CopyReads(c, nbuf, s, t);
    s' := s1.(disk := s1.disk[b := Filled(1)],
              cache := s1.cache[to := s1.cache[to].(data := Filled(1), dirty := false)],
              procs := AtPhase(s1, 0, if t + 1 < |s1.lh| then WriteLog(t + 1) else WriteHead));
    Extend(c, nbuf, s1, WriteLogStep(0, to, t), s');
  }

  /** and releases both. */
  lemma CopyOne(c: Config, nbuf: nat, s: State, t: nat) returns (s': State)
    requires Copied(c, nbuf, s, t) && Slot(c, t) < c.nblocks
    ensures Reachable(c, nbuf, s')
    ensures s' == s.(disk := s.disk[Slot(c, t) := Filled(1)],
                     cache := s.cache[c.size := Buf(Some(Slot(c, t)), true, false, Filled(1), 0, {}, None, false)],
                     procs := AtPhase(s, 0, if t + 1 < |s.lh| then WriteLog(t + 1) else WriteHead))
  {
    var s2 := CopyWrites(c, nbuf, s, t);
    var s3 := Release(c, nbuf, s2, 0, t);
    s' := Release(c, nbuf, s3, 0, c.size);
    assert s'.cache[t] == s.cache[t];
  }

  lemma {:induction false} CopySome(c: Config, nbuf: nat, t: nat) returns (s: State)
    requires Tight(c, nbuf) && c.size < nbuf && t < c.size
    ensures Copied(c, nbuf, s, t)
  {
    if t == 0 {
      s := RacePastTheEnd(c, nbuf);
      s := EndOps(c, nbuf, s);
    } else {
      var s0 := CopySome(c, nbuf, t - 1);
      s := CopyOne(c, nbuf, s0, t - 1);
    }
  }

  /** With one buffer more, commit() goes on and overwrites the block behind the log
      area, which no operation has logged. */
  lemma CommitOverwrites(c: Config, nbuf: nat) returns (s: State)
    requires Tight(c, nbuf) && c.size < nbuf
    ensures Reachable(c, nbuf, s) && c.start + c.size < |s.disk| == |s.committed|
    ensures IsHome(c, c.start + c.size) && c.start + c.size !in s.lh
    ensures s.disk[c.start + c.size] != s.committed[c.start + c.size]
    ensures HeadOk(s.disk[c.start]) && Head(s.disk[c.start]) == []
  {
    var s0 := CopySome(c, nbuf, c.size - 1);
    s := CopyOne(c, nbuf, s0, c.size - 1);
    assert s.disk[c.start + c.size] == Filled(1);
  }

  // ---------------------------------------------------------------- operations that overdraw

  /** Process p changes the next block through the next buffer. */
  lemma ChangeNext(c: Config, nbuf: nat, s: State, p: Pid, n: nat) returns (s': State)
    requires Reachable(c, nbuf, s) && s.up && p in s.procs && s.procs[p].InOp? && |s.disk| == c.nblocks
    requires n < |s.cache| && IsSpare(s.cache[n]) && TagsBelow(s.cache, Target(c, n)) && Target(c, n) < c.nblocks
    ensures Reachable(c, nbuf, s') && s' == s.(cache := s.cache[n := Changed(Target(c, n), p)])
    ensures TagsBelow(s'.cache, Target(c, n + 1))
  {
    s' := Change(c, nbuf, s, p, n, Target(c, n));
  }

  /** Three operations with these counts are open, none behind the test. */
  ghost function Spent(a: nat, b: nat, d: nat): map<Pid, Pc> {
    map[0 := InOp(a, false), 1 := InOp(b, false), 2 := InOp(d, false)]
  }

  lemma TwoLeft()
    ensures Turns(LOGSIZE - 2) == Spent(MAXOPBLOCKS, MAXOPBLOCKS - 1, MAXOPBLOCKS - 1)
  {
  }

  /** Three operations have changed a block each */
  lemma ThreeChange(c: Config, nbuf: nat, n: nat) returns (s0: State, s: State)
    requires Roomy(c) && LOGSIZE <= c.size && LOGSIZE < nbuf && n == LOGSIZE - 2
    ensures Loaded(c, nbuf, s0, n) && Reachable(c, nbuf, s) && n + 2 < |s0.cache|
    ensures s == s0.(cache := s0.cache[n := Changed(Target(c, n), 0)][n + 1 := Changed(Target(c, n + 1), 1)]
                                      [n + 2 := Changed(Target(c, n + 2), 2)])
    ensures s0.procs == Spent(MAXOPBLOCKS, MAXOPBLOCKS - 1, MAXOPBLOCKS - 1)
  {
    s0 := Load(c, nbuf, n);
    TwoLeft();
    var s1 := ChangeNext(c, nbuf, s0, 0, n);
    var s2 := ChangeNext(c, nbuf, s1, 1, n + 1);
    s := ChangeNext(c, nbuf, s2, 2, n + 2);
  }

  /** and passed the test with two entries left in the array. */
  lemma ThreePass(c: Config, nbuf: nat, n: nat) returns (s0: State, s: State)
    requires Roomy(c) && LOGSIZE <= c.size && LOGSIZE < nbuf && n == LOGSIZE - 2
    ensures Loaded(c, nbuf, s0, n) && Reachable(c, nbuf, s) && n + 2 < |s0.cache|
    ensures s == s0.(cache := s0.cache[n := Changed(Target(c, n), 0)][n + 1 := Changed(Target(c, n + 1), 1)]
                                      [n + 2 := Changed(Target(c, n + 2), 2)],
                     procs := s.procs)
    ensures s.procs == map[0 := InOp(MAXOPBLOCKS, true), 1 := InOp(MAXOPBLOCKS - 1, true),
                           2 := InOp(MAXOPBLOCKS - 1, true)]
  {
    var s1;
    s0, s1 := ThreeChange(c, nbuf, n);
    s := ThreeCheck(c, nbuf, s1, MAXOPBLOCKS, MAXOPBLOCKS - 1, MAXOPBLOCKS - 1);
  }

  lemma ThreeCheck(c: Config, nbuf: nat, s: State, a: nat, b: nat, d: nat) returns (s': State)
    requires Reachable(c, nbuf, s) && |s.lh| < LOGSIZE && |s.lh| < c.size - 1 && s.procs == Spent(a, b, d)
    ensures Reachable(c, nbuf, s')
    ensures s' == s.(procs := map[0 := InOp(a, true), 1 := InOp(b, true), 2 := InOp(d, true)])
  {
    var s1 := Check(c, nbuf, s, 0);
    var s2 := Check(c, nbuf, s1, 1);
    s' := Check(c, nbuf, s2, 2);
    assert s'.procs == map[0 := InOp(a, true), 1 := InOp(b, true), 2 := InOp(d, true)];
  }

  /** Two of them append, the first its block number MAXOPBLOCKS + 1; the store of the
      third goes past the end of the array. */
  lemma OverdraftOverruns(c: Config, nbuf: nat) returns (s: State)
    requires Roomy(c) && LOGSIZE <= c.size && LOGSIZE < nbuf
    ensures Reachable(c, nbuf, s) && Overruns(c, s, 2, LOGSIZE)
    ensures s.procs.Keys == {0, 1, 2} && s.procs[0] == InOp(MAXOPBLOCKS + 1, false)
    ensures s.procs[1] == InOp(MAXOPBLOCKS, false) && s.procs[2] == InOp(MAXOPBLOCKS - 1, true)
  {
    var n := LOGSIZE - 2;
    var s0, s1 := ThreePass(c, nbuf, n);
    var s2 := Append(c, nbuf, s1, 0, n, Target(c, n));
    s := Append(c, nbuf, s2, 1, n + 1, Target(c, n + 1));
  }

  /** In an area of at most LOGSIZE blocks, as mkfs.c makes it, log_write() panics for an
      operation within its reservation although no other has logged too much. */
  lemma TooSmallStops(c: Config, nbuf: nat) returns (s: State, p: Pid)
    requires Roomy(c) && c.size <= LOGSIZE && c.size - 1 <= nbuf
    ensures Reachable(c, nbuf, s) && Thrifty(s) && Stuck(c, s, p)
  {
    var n := c.size - 1;
    s := Load(c, nbuf, n);
    p := n % 3;
  }

  /** n blocks are logged, in the first n buffers, and the others can be taken. */
  ghost predicate Going(c: Config, nbuf: nat, s: State, n: nat) {
    && Reachable(c, nbuf, s) && s.up && |s.disk| == c.nblocks && |s.cache| == nbuf
    && |s.lh| == n && AreTargets(c, s.lh) && SpareFrom(s.cache, n) && TagsBelow(s.cache, Target(c, n))
  }

  /** Process p changes, logs and releases the next block. */
  lemma LogNext(c: Config, nbuf: nat, s: State, p: Pid, n: nat) returns (s': State)
    requires Roomy(c) && Going(c, nbuf, s, n) && p in s.procs && s.procs[p].InOp?
    requires n < LOGSIZE && n < c.size - 1 && n < nbuf
    ensures Going(c, nbuf, s', n + 1) && s'.procs == s.procs[p := InOp(s.procs[p].spent + 1, false)]
  {
    s' := LogBlock(c, nbuf, s, p, n, Target(c, n));
  }

  /** In a larger area it takes an operation that logs MAXOPBLOCKS + 1 blocks. */
  lemma OverdraftStops(c: Config, nbuf: nat) returns (s: State, p: Pid)
    requires Roomy(c) && LOGSIZE < c.size && LOGSIZE <= nbuf
    ensures Reachable(c, nbuf, s) && Stuck(c, s, p)
    ensures s.procs == Spent(MAXOPBLOCKS + 1, MAXOPBLOCKS, MAXOPBLOCKS - 1)
  {
    var n := LOGSIZE - 2;
    var s0 := Load(c, nbuf, n);
    TwoLeft();
    var s1 := LogNext(c, nbuf, s0, 0, n);
    assert s1.procs == Spent(MAXOPBLOCKS + 1, MAXOPBLOCKS - 1, MAXOPBLOCKS - 1);
    s := LogNext(c, nbuf, s1, 1, n + 1);
    assert s.procs == Spent(MAXOPBLOCKS + 1, MAXOPBLOCKS, MAXOPBLOCKS - 1);
    p := 2;
  }

  // ---------------------------------------------------------------- exact conditions

  lemma RunTo(c: Config, nbuf: nat, s: State) returns (states: seq<State>, steps: seq<Step>)
    requires Reachable(c, nbuf, s)
    ensures IsRun(c, states, steps) && |states[0].cache| == nbuf && states[|steps|] == s
  {
    states, steps :| IsRun(c, states, steps) && |states[0].cache| == nbuf && states[|steps|] == s;
  }

  /** Every run keeps its slots in the log area, up to an overrun of the array, iff the
      area has room for the largest header or for a transaction that pins all buffers. */
  lemma SlotsInAreaIff(c: Config, nbuf: nat)
    requires Roomy(c)
    ensures (forall s :: Reachable(c, nbuf, s) ==> SlotsInArea(c, s)) <==> LOGSIZE < c.size || nbuf < c.size
  {
    if LOGSIZE < c.size || nbuf < c.size {
      forall s | Reachable(c, nbuf, s) ensures SlotsInArea(c, s) {
        var states, steps := RunTo(c, nbuf, s);
        HeaderBound(c, states, steps, |steps|);
      }
    } else {
      var s := RacePastTheEnd(c, nbuf);
      assert Slot(c, c.size - 1) >= c.start + c.size;
      assert !SlotsInArea(c, s);
    }
  }

  /** No process is about to store past the end of log.lh.block. */
  ghost predicate InArray(c: Config, s: State) {
    forall p, i :: !Overruns(c, s, p, i)
  }

  /** No run overruns the array iff there are no more buffers than entries, or the log
      area is smaller than the array. */
  lemma InArrayIff(c: Config, nbuf: nat)
    requires Roomy(c)
    ensures (forall s :: Reachable(c, nbuf, s) ==> InArray(c, s)) <==> nbuf <= LOGSIZE || c.size < LOGSIZE
  {
    if nbuf <= LOGSIZE || c.size < LOGSIZE {
      forall s | Reachable(c, nbuf, s) ensures InArray(c, s) {
        var states, steps := RunTo(c, nbuf, s);
        forall p, i ensures !Overruns(c, s, p, i) {
          NeverOverruns(c, states, steps, |steps|, p, i);
        }
      }
    } else {
      var s := OverdraftOverruns(c, nbuf);
      assert !InArray(c, s);
    }
  }

  /** recover_from_log() would bring every home block to its committed content. */
  ghost predicate Recovers(c: Config, s: State) {
    && |s.disk| == |s.committed| == c.nblocks && c.start < c.nblocks
    && HeadOk(s.disk[c.start]) && Slot(c, |Head(s.disk[c.start])|) <= c.nblocks
    && forall b :: IsHome(c, b) ==> Recovered(c, s.disk)[b] == s.committed[b]
  }

  lemma SafeRecovers(c: Config, s: State)
    requires CrashSafe(c, s.disk, s.committed)
    ensures Recovers(c, s)
  {
    forall b | IsHome(c, b) ensures Recovered(c, s.disk)[b] == s.committed[b] {
      RecoveredIsCommitted(c, s.disk, s.committed, b);
    }
  }

  /** Recovery brings every home block to its committed content, from every state of
      every run, up to an overrun of the array, iff the area fits. */
  lemma RecoversIffFits(c: Config, nbuf: nat)
    requires Roomy(c)
    ensures (forall s :: Reachable(c, nbuf, s) ==> Recovers(c, s)) <==> Fits(c, nbuf)
    ensures (forall s :: Reachable(c, nbuf, s) ==> CrashSafe(c, s.disk, s.committed)) <==> Fits(c, nbuf)
  {
    if Fits(c, nbuf) {
      forall s | Reachable(c, nbuf, s) ensures CrashSafe(c, s.disk, s.committed) && Recovers(c, s) {
        var states, steps := RunTo(c, nbuf, s);
        var w := RunInv(c, states, steps, |steps|);
        SafeRecovers(c, s);
      }
    } else {
      var s := CommitOverwrites(c, nbuf);
      assert !Recovers(c, s) && !CrashSafe(c, s.disk, s.committed);
    }
  }

  /** The exact condition under which no run goes wrong at all, whatever the operations
      log: no overrun, and every state recovers, iff there are no more buffers than the
      area has blocks and no more than the array has entries. */
  lemma LogSoundIff(c: Config, nbuf: nat)
    requires Roomy(c)
    ensures (forall s :: Reachable(c, nbuf, s) ==> InArray(c, s) && Recovers(c, s)) <==>
      nbuf <= c.size && nbuf <= LOGSIZE
    ensures (forall s :: Reachable(c, nbuf, s) ==> InArray(c, s) && SlotsInArea(c, s)) <==>
      nbuf < c.size && nbuf <= LOGSIZE
  {
    InArrayIff(c, nbuf);
    RecoversIffFits(c, nbuf);
    SlotsInAreaIff(c, nbuf);
  }
}
