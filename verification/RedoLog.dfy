/**
  log.c as it runs: the disk writes of commit() and of recovery, in order, and
  what a crash between any two of them leaves behind.
*/
module RedoLog {
  import opened Options
  import opened LogProtocol
  import LogSafety
  import BC = BufferCache

  datatype Write = Write(blockno: nat, data: Block)

  function Apply(disk: seq<Block>, ws: seq<Write>): (r: seq<Block>)
    ensures |r| == |disk|
  {
    if ws == [] then disk
    else
      var w := ws[|ws| - 1];
      var d := Apply(disk, ws[..|ws| - 1]);
      if w.blockno < |d| then d[w.blockno := w.data] else d
  }

  lemma OneMoreWrite(d0: seq<Block>, w0: seq<Write>, done: seq<Write>, w: Write,
                     d1: seq<Block>, w1: seq<Write>, d2: seq<Block>, w2: seq<Write>)
    requires w1 == w0 + done && d1 == Apply(d0, done) && w.blockno < |d0|
    requires w2 == w1 + [w] && d2 == d1[w.blockno := w.data]
    ensures w2 == w0 + (done + [w]) && d2 == Apply(d0, done + [w])
  {
    ApplySnoc(d0, done, w);
  }

  lemma ApplySnoc(disk: seq<Block>, ws: seq<Write>, w: Write)
    requires w.blockno < |disk|
    ensures Apply(disk, ws + [w]) == Apply(disk, ws)[w.blockno := w.data]
  {
    assert (ws + [w])[..|ws|] == ws;
  }

  ghost predicate InRange(lh: seq<int>, n: nat) {
    forall k :: 0 <= k < |lh| ==> 0 <= lh[k] < n
  }

  /** What the first n turns of write_log() put on disk, given the cached content. */
  ghost function LogWrites(c: Config, lh: seq<int>, view: seq<Block>, n: nat): (r: seq<Write>)
    requires n <= |lh| && InRange(lh, |view|)
    ensures |r| == n
  {
    if n == 0 then []
    else LogWrites(c, lh, view, n - 1) + [Write(Slot(c, n - 1), view[lh[n - 1]])]
  }

  /** What the first n turns of install_trans() put on disk, given the log slots. */
  ghost function InstallWrites(c: Config, lh: seq<int>, log: seq<Block>, n: nat): (r: seq<Write>)
    requires n <= |lh| && Slot(c, |lh|) <= |log| && InRange(lh, |log|)
    ensures |r| == n
  {
    if n == 0 then []
    else InstallWrites(c, lh, log, n - 1) + [Write(lh[n - 1], log[Slot(c, n - 1)])]
  }

  /** The blocks of a transaction: distinct, outside the log, and with room. */
  ghost predicate LhOk(c: Config, lh: seq<int>) {
    && |lh| <= LOGSIZE && Slot(c, |lh|) <= c.start + c.size <= c.nblocks
    && LogSafety.LhInv(c, lh) && InRange(lh, c.nblocks)
  }

  /** The loop of write_head(). */
  method FillHead(b: Block, lh: seq<int>) returns (data: Block)
    requires |lh| <= LOGSIZE
    ensures data == EncodeHead(b, lh)
  {
    data := b[0 := |lh|];
    var i := 0;
    while i < |lh|
      invariant 0 <= i <= |lh| && data == [|lh|] + lh[..i] + b[1 + i..]
    {
      data := data[1 + i := lh[i]];
      i := i + 1;
    }
    assert lh[..i] == lh;
  }

  lemma PrefixConcat(first: seq<Write>, more: seq<Write>, second: seq<Write>)
    requires more <= second
    ensures first + more <= first + second
  {
  }

  /** The entries that the count of a header block covers. */
  function Entries(b: Block): seq<int>
    requires b[0] <= LOGSIZE
  {
    b[1..1 + (if b[0] < 0 then 0 else b[0])]
  }

  /** The loop of read_head(). */
  method TakeHead(data: Block) returns (lh: seq<int>)
    requires data[0] <= LOGSIZE
    ensures lh == Entries(data)
  {
    lh := [];
    var i := 0;
    while i < data[0]
      invariant 0 <= i <= (if data[0] < 0 then 0 else data[0]) && lh == data[1..1 + i]
    {
      lh := lh + [data[1 + i]];
      i := i + 1;
    }
  }

  /** Buffers f and t have one user more each, the others as many as before. */
  ghost predicate TwoMore(users: seq<nat>, users': seq<nat>, f: nat, t: nat) {
    f < |users| && t < |users| && users' == users[f := users[f] + 1][t := users[t] + 1]
  }

  lemma TwoMoreOnce(users: seq<nat>, users': seq<nat>, users'': seq<nat>, f: nat, t: nat)
    requires f != t && |users| == |users''| && TwoMore(users, users', f, t) && TwoMore(users'', users', f, t)
    ensures users == users''
  {
    forall i | 0 <= i < |users| ensures users[i] == users''[i] {
      assert users'[i] == users[f := users[f] + 1][t := users[t] + 1][i];
    }
  }

  datatype HeadResult = HeadRead | NoBuffer | PastTheArray

  class Log {
    const bc: BC.Bcache
    const c: Config
    var lh: seq<int>
    var outstanding: nat
    var committing: bool
    ghost var writes: seq<Write>     // the disk writes so far

    /** No buffer is held between the steps below. */
    ghost predicate Valid()
      reads this, bc
    {
      && bc.Valid() && |bc.disk| == c.nblocks
      && (forall i :: 0 <= i < |bc.buf| ==> !bc.buf[i].locked)
    }

    /** bget() panics: every buffer is held or pinned. */
    ghost predicate OutOfBuffers()
      reads this, bc
    {
      exists n :: BC.NoRoom(bc.buf, BC.DISK, n)
    }

    /** initlog(), up to recovery: nothing is cached yet. */
    constructor (bc: BC.Bcache, c: Config)
      requires bc.Valid() && |bc.disk| == c.nblocks
      requires forall i :: 0 <= i < bc.nbuf ==> !bc.buf[i].locked
      ensures Valid() && this.bc == bc && this.c == c && lh == [] && writes == [] && outstanding == 0 && !committing
    {
      this.bc := bc;
      this.c := c;
      lh := [];
      outstanding := 0;
      committing := false;
      writes := [];
    }

    /** begin_op(): one more operation, or the caller sleeps.  There is room for all
        that the open operations may log. */
    method BeginOp() returns (ok: bool)
      modifies this`outstanding
      ensures ok <==> !committing && |lh| + (old(outstanding) + 1) * MAXOPBLOCKS <= LOGSIZE
      ensures outstanding == if ok then old(outstanding) + 1 else old(outstanding)
      ensures ok ==> |lh| + outstanding * MAXOPBLOCKS <= LOGSIZE
    {
      if committing || |lh| + (outstanding + 1) * MAXOPBLOCKS > LOGSIZE {
        return false;
      }
      outstanding := outstanding + 1;
      return true;
    }

    /** end_op(): the last operation commits.  It panics during a commit, and
        commit() does for want of a buffer. */
    method EndOp() returns (ok: bool, ghost done: seq<Write>)
      requires Valid() && LhOk(c, lh) && 0 < outstanding
      modifies this, bc
      ensures outstanding == old(outstanding) - 1
      ensures !ok ==> old(committing) || OutOfBuffers()
      ensures old(committing) ==> !ok
      ensures ok ==> Valid() && bc.users == old(bc.users) && !committing
      ensures ok && 0 < outstanding ==> lh == old(lh) && done == [] && bc.view == old(bc.view)
      ensures ok && outstanding == 0 ==> lh == [] && (old(lh) != [] ==> done == CommitWrites(c, old(lh), old(bc.view)))
      ensures writes == old(writes) + done && bc.disk == Apply(old(bc.disk), done)
    {
      outstanding := outstanding - 1;
      done := [];
      if committing {
        return false, [];
      }
      if outstanding > 0 {
        return true, [];
      }
      committing := true;
      ok, done := Commit();
      if ok {
        committing := false;
      }
    }

    /** log_write(): absorb a block that is already logged, append a new one,
        and pin the buffer.  Both panics come before any change. */
    method LogWrite(b: nat) returns (ok: bool)
      requires bc.Valid() && b < bc.nbuf && bc.buf[b].valid && bc.buf[b].locked
      modifies this`lh, bc`buf
      ensures ok <==> |old(lh)| < LOGSIZE && |old(lh)| < c.size - 1 && 0 < outstanding
      ensures bc.Valid()
      ensures lh == if !ok || bc.buf[b].blockno in old(lh) then old(lh) else old(lh) + [bc.buf[b].blockno]
      ensures LogSafety.Distinct(old(lh)) ==> LogSafety.Distinct(lh)
      ensures bc.buf == if ok then old(bc.buf)[b := old(bc.buf)[b].(dirty := true)] else old(bc.buf)
    {
      if |lh| >= LOGSIZE || |lh| >= c.size - 1 || outstanding < 1 {
        return false;
      }
      var i := 0;
      while i < |lh| && lh[i] != bc.buf[b].blockno
        invariant 0 <= i <= |lh| && bc.buf[b].blockno !in lh[..i]
      {
        i := i + 1;
      }
      if i < |lh| {
        lh := lh[i := bc.buf[b].blockno];
      } else {
        assert lh[..i] == lh;
        lh := lh + [bc.buf[b].blockno];
      }
      bc.MarkDirty(b);
      return true;
    }

    /** Buffer i is held and caches block n. */
    ghost predicate HasBlock(i: nat, n: nat)
      reads bc
    {
      && i < bc.nbuf == |bc.buf| && n < |bc.disk| == |bc.view|
      && bc.buf[i].locked && bc.buf[i].valid && bc.buf[i].blockno == n && bc.buf[i].data == bc.view[n]
      && (!bc.buf[i].dirty ==> bc.buf[i].data == bc.disk[n])
    }

    method OpenPair(from: nat, to: nat) returns (r: Option<(nat, nat)>)
      requires Valid() && from != to && from < c.nblocks && to < c.nblocks
      modifies bc`buf, bc`users
      ensures r.None? ==> OutOfBuffers()
      ensures r.Some? ==> bc.Valid() && HasBlock(r.value.0, from) && HasBlock(r.value.1, to)
      ensures r.Some? ==> forall i :: 0 <= i < |bc.buf| && bc.buf[i].locked ==> i == r.value.0 || i == r.value.1
      ensures r.Some? ==> r.value.0 != r.value.1 && TwoMore(old(bc.users), bc.users, r.value.0, r.value.1)
    {
      var f := bc.Bread(BC.DISK, from);
      if f.None? { return None; }
      var t := bc.Bread(BC.DISK, to);
      if t.None? { return None; }
      return Some((f.value, t.value));
    }

    method ClosePair(f: nat, t: nat, ghost from: nat, ghost to: nat)
      requires bc.Valid() && |bc.disk| == c.nblocks && from != to && HasBlock(f, from) && HasBlock(t, to)
      requires forall i :: 0 <= i < |bc.buf| && bc.buf[i].locked ==> i == f || i == t
      modifies bc`buf, bc`next, bc`prev, bc`ring, bc`users
      ensures Valid() && TwoMore(bc.users, old(bc.users), f, t)
    {
      var r1 := bc.Brelse(f);
      var r2 := bc.Brelse(t);
    }

    /** Read `from`, copy it over `to`, write `to`, release both: the body of the
        loops of write_log() and install_trans().  It fails, before its write,
        when the cache has no buffer left. */
    method CopyBlock(from: nat, to: nat) returns (ok: bool)
      requires Valid() && from != to && from < c.nblocks && to < c.nblocks
      modifies this`writes, bc
      ensures !ok ==> OutOfBuffers()
      ensures ok ==> Valid() && bc.users == old(bc.users) && bc.view == old(bc.view)[to := old(bc.view)[from]]
      ensures ok ==> bc.disk == old(bc.disk)[to := old(bc.view)[from]]
      ensures ok ==> writes == old(writes) + [Write(to, old(bc.view)[from])]
      ensures !ok ==> bc.disk == old(bc.disk) && writes == old(writes)
    {
      var r := OpenPair(from, to);
      if r.None? { return false; }
      var (f, t) := r.value;
      var data := bc.buf[f].data;
      bc.Overwrite(t, data);
      var w := bc.Bwrite(t);
      ghost var used := bc.users;
      ClosePair(f, t, from, to);
      TwoMoreOnce(old(bc.users), used, bc.users, f, t);
      writes := writes + [Write(to, data)];
      return true;
    }

    /** n turns of write_log() are done since view, disk and writes were v0, d0 and w0. */
    ghost predicate LogProgress(v0: seq<Block>, d0: seq<Block>, w0: seq<Write>, n: nat)
      requires n <= |lh| && InRange(lh, |v0|)
      reads this, bc
    {
      && writes == w0 + LogWrites(c, lh, v0, n)
      && bc.disk == Apply(d0, LogWrites(c, lh, v0, n))
      && Logging(c, lh, v0, bc.view, n)
    }

    method LogTurn(tail: nat, ghost v0: seq<Block>, ghost d0: seq<Block>, ghost w0: seq<Write>) returns (ok: bool)
      requires Valid() && LhOk(c, lh) && tail < |lh| && InRange(lh, |v0|) && |d0| == c.nblocks
      requires LogProgress(v0, d0, w0, tail)
      modifies this`writes, bc
      ensures !ok ==> OutOfBuffers()
      ensures ok ==> Valid() && bc.users == old(bc.users) && LogProgress(v0, d0, w0, tail + 1)
      ensures !ok ==> bc.disk == old(bc.disk) && writes == old(writes)
    {
      assert bc.view[lh[tail]] == v0[lh[tail]];
      ok := CopyBlock(lh[tail], Slot(c, tail));
      ApplySnoc(d0, LogWrites(c, lh, v0, tail), Write(Slot(c, tail), v0[lh[tail]]));
    }

    /** Copy modified blocks from cache to log.  n counts the writes done. */
    method WriteLog() returns (ok: bool, ghost n: nat)
      requires Valid() && LhOk(c, lh)
      modifies this`writes, bc
      ensures !ok ==> OutOfBuffers()
      ensures n <= |lh| && (ok ==> n == |lh| && Valid() && bc.users == old(bc.users))
      ensures writes == old(writes) + LogWrites(c, lh, old(bc.view), n)
      ensures bc.disk == Apply(old(bc.disk), LogWrites(c, lh, old(bc.view), n))
      ensures ok ==> Logging(c, lh, old(bc.view), bc.view, n)
    {
      ghost var v0, d0, w0 := bc.view, bc.disk, writes;
      var tail := 0;
      n := 0;
      ok := true;
      while tail < |lh|
        invariant 0 <= tail <= |lh| && n == tail && ok
        invariant Valid() && bc.users == old(bc.users) && LogProgress(v0, d0, w0, tail)
      {
        ok := LogTurn(tail, v0, d0, w0);
        if !ok { return; }
        tail := tail + 1;
        n := tail;
      }
    }

    /** n turns of install_trans() are done since view, disk and writes were v0, d0 and w0. */
    ghost predicate InstallProgress(v0: seq<Block>, d0: seq<Block>, w0: seq<Write>, n: nat)
      requires n <= |lh| && Slot(c, |lh|) <= |v0| && InRange(lh, |v0|)
      reads this, bc
    {
      && writes == w0 + InstallWrites(c, lh, v0, n)
      && bc.disk == Apply(d0, InstallWrites(c, lh, v0, n))
      && SameLog(c, v0, bc.view)
    }

    method InstallTurn(tail: nat, ghost v0: seq<Block>, ghost d0: seq<Block>, ghost w0: seq<Write>) returns (ok: bool)
      requires Valid() && LhOk(c, lh) && tail < |lh| && |v0| == |d0| == c.nblocks
      requires InstallProgress(v0, d0, w0, tail)
      modifies this`writes, bc
      ensures !ok ==> OutOfBuffers()
      ensures ok ==> Valid() && bc.users == old(bc.users) && InstallProgress(v0, d0, w0, tail + 1)
      ensures !ok ==> bc.disk == old(bc.disk) && writes == old(writes)
    {
      assert IsHome(c, lh[tail]);
      ok := CopyBlock(Slot(c, tail), lh[tail]);
      ApplySnoc(d0, InstallWrites(c, lh, v0, tail), Write(lh[tail], v0[Slot(c, tail)]));
    }

    /** Copy committed blocks from log to their home location. */
    method InstallTrans() returns (ok: bool, ghost n: nat)
      requires Valid() && LhOk(c, lh)
      modifies this`writes, bc
      ensures !ok ==> OutOfBuffers()
      ensures n <= |lh| && (ok ==> n == |lh| && Valid() && bc.users == old(bc.users))
      ensures writes == old(writes) + InstallWrites(c, lh, old(bc.view), n)
      ensures bc.disk == Apply(old(bc.disk), InstallWrites(c, lh, old(bc.view), n))
      ensures ok ==> SameLog(c, old(bc.view), bc.view)
    {
      ghost var v0, d0, w0 := bc.view, bc.disk, writes;
      var tail, len := 0, |lh|;
      n := 0;
      ok := true;
      while tail < len
        invariant 0 <= tail <= len && n == tail && ok
        invariant Valid() && bc.users == old(bc.users) && InstallProgress(v0, d0, w0, tail)
      {
        ok := InstallTurn(tail, v0, d0, w0);
        if !ok { return; }
        tail := tail + 1;
        n := tail;
      }
    }

    /** Write in-memory log header to disk: the true point of commit. */
    method WriteHead() returns (ok: bool)
      requires Valid() && |lh| <= LOGSIZE && c.start < c.nblocks
      modifies this`writes, bc
      ensures !ok ==> OutOfBuffers()
      ensures ok ==> Valid() && bc.users == old(bc.users)
      ensures ok ==> writes == old(writes) + [Write(c.start, EncodeHead(old(bc.view)[c.start], lh))]
      ensures ok ==> bc.disk == old(bc.disk)[c.start := EncodeHead(old(bc.view)[c.start], lh)]
      ensures ok ==> bc.view == old(bc.view)[c.start := EncodeHead(old(bc.view)[c.start], lh)]
      ensures !ok ==> writes == old(writes) && bc.disk == old(bc.disk)
    {
      var h := bc.Bread(BC.DISK, c.start);
      if h.None? { return false; }
      var data := FillHead(bc.buf[h.value].data, lh);
      ok := WriteHeld(h.value, data);
      writes := writes + [Write(c.start, data)];
    }

    /** Fill the held buffer h, write it and release it. */
    method WriteHeld(h: nat, data: Block) returns (ok: bool)
      requires bc.Valid() && |bc.disk| == c.nblocks && h < bc.nbuf && HasBlock(h, bc.buf[h].blockno)
      requires forall i :: 0 <= i < |bc.buf| && bc.buf[i].locked ==> i == h
      modifies bc
      ensures ok && Valid() && 0 < old(bc.users)[h] && bc.users == old(bc.users)[h := old(bc.users)[h] - 1]
      ensures bc.disk == old(bc.disk)[old(bc.buf)[h].blockno := data]
      ensures bc.view == old(bc.view)[old(bc.buf)[h].blockno := data]
    {
      bc.Overwrite(h, data);
      ok := bc.Bwrite(h);
      var r := bc.Brelse(h);
    }

    /** Read the log header from disk into the in-memory log header.  A count above
        LOGSIZE goes past the end of the array in memory. */
    method ReadHead() returns (r: HeadResult)
      requires Valid() && c.start < c.nblocks
      modifies this`lh, bc
      ensures r == NoBuffer ==> OutOfBuffers()
      ensures r != NoBuffer ==> (r == PastTheArray <==> LOGSIZE < old(bc.view)[c.start][0])
      ensures r == HeadRead ==> Valid() && bc.users == old(bc.users) && bc.view == old(bc.view)
      ensures r == HeadRead ==> lh == Entries(old(bc.view)[c.start])
      ensures bc.disk == old(bc.disk)
    {
      var h := bc.Bread(BC.DISK, c.start);
      if h.None? { return NoBuffer; }
      var data := bc.buf[h.value].data;
      if data[0] > LOGSIZE { return PastTheArray; }
      lh := TakeHead(data);
      var ok := bc.Brelse(h.value);
      return HeadRead;
    }

    /** write_log() and write_head(): the first half of commit(). */
    method WriteTransaction() returns (ok: bool, ghost done: seq<Write>)
      requires Valid() && LhOk(c, lh)
      modifies this`writes, bc
      ensures !ok ==> OutOfBuffers()
      ensures writes == old(writes) + done && bc.disk == Apply(old(bc.disk), done)
      ensures done <= FirstHalf(c, lh, old(bc.view))
      ensures ok ==> Valid() && bc.users == old(bc.users) && done == FirstHalf(c, lh, old(bc.view))
      ensures ok ==> forall k :: 0 <= k < |lh| ==> bc.view[Slot(c, k)] == old(bc.view)[lh[k]]
      ensures ok ==> bc.view[c.start] == EncodeHead(old(bc.view)[c.start], lh)
    {
      ghost var v0, d0, w0, n := bc.view, bc.disk, writes, 0;
      ok, n := WriteLog();
      done := LogWrites(c, lh, v0, n);
      LogWritesPrefix(c, lh, v0, n);
      if ok {
        ok, done := Seal(d0, w0, v0, done);
      }
    }

    /** The header, behind the log copies. */
    method Seal(ghost d0: seq<Block>, ghost w0: seq<Write>, ghost v0: seq<Block>,
                ghost copies: seq<Write>) returns (ok: bool, ghost done: seq<Write>)
      requires Valid() && LhOk(c, lh) && Logging(c, lh, v0, bc.view, |lh|) && copies == LogWrites(c, lh, v0, |lh|)
      requires |d0| == c.nblocks && writes == w0 + copies && bc.disk == Apply(d0, copies)
      modifies this`writes, bc
      ensures !ok ==> OutOfBuffers() && done == copies
      ensures writes == w0 + done && bc.disk == Apply(d0, done)
      ensures ok ==> Valid() && bc.users == old(bc.users)
      ensures ok ==> done == FirstHalf(c, lh, v0) && bc.view[c.start] == EncodeHead(v0[c.start], lh)
      ensures ok ==> forall k :: 0 <= k < |lh| ==> bc.view[Slot(c, k)] == v0[lh[k]]
    {
      done := copies;
      ghost var w := Write(c.start, EncodeHead(bc.view[c.start], lh));
      ghost var d1, w1 := bc.disk, writes;
      ok := WriteHead();
      if ok {
        done := copies + [w];
        OneMoreWrite(d0, w0, copies, w, d1, w1, bc.disk, writes);
      }
    }

    /** install_trans() and the clearing write_head(): the second half of
        commit(), and all of recovery once the header is read. */
    method InstallAndClear() returns (ok: bool, ghost done: seq<Write>)
      requires Valid() && LhOk(c, lh)
      modifies this`lh, this`writes, bc
      ensures !ok ==> OutOfBuffers()
      ensures writes == old(writes) + done && bc.disk == Apply(old(bc.disk), done)
      ensures done <= SecondHalf(c, old(lh), old(bc.view))
      ensures ok ==> Valid() && bc.users == old(bc.users) && lh == [] && done == SecondHalf(c, old(lh), old(bc.view))
    {
      ghost var v0, d0, w0, n := bc.view, bc.disk, writes, 0;
      ok, n := InstallTrans();
      done := InstallWrites(c, lh, v0, n);
      InstallWritesPrefix(c, lh, v0, n);
      if !ok { return; }
      ghost var w := Write(c.start, EncodeHead(v0[c.start], []));
      ghost var d1, w1, home := bc.disk, writes, done;
      ok := Clear();
      if ok {
        done := home + [w];
        OneMoreWrite(d0, w0, home, w, d1, w1, bc.disk, writes);
      }
    }

    /** log.lh.n = 0; write_head(). */
    method Clear() returns (ok: bool)
      requires Valid() && c.start < c.nblocks
      modifies this`lh, this`writes, bc
      ensures !ok ==> OutOfBuffers()
      ensures lh == [] && (ok ==> Valid() && bc.users == old(bc.users))
      ensures ok ==> writes == old(writes) + [Write(c.start, EncodeHead(old(bc.view)[c.start], []))]
      ensures ok ==> bc.disk == old(bc.disk)[c.start := EncodeHead(old(bc.view)[c.start], [])]
      ensures !ok ==> writes == old(writes) && bc.disk == old(bc.disk)
    {
      lh := [];
      ok := WriteHead();
    }

    /** commit(): the writes it makes are those of CommitWrites, in that order,
        up to the point, if any, where the cache runs out of buffers. */
    method Commit() returns (ok: bool, ghost done: seq<Write>)
      requires Valid() && LhOk(c, lh)
      modifies this`lh, this`writes, bc
      ensures !ok ==> OutOfBuffers()
      ensures writes == old(writes) + done && bc.disk == Apply(old(bc.disk), done)
      ensures done <= (if old(lh) == [] then [] else CommitWrites(c, old(lh), old(bc.view)))
      ensures ok ==> Valid() && bc.users == old(bc.users) && lh == []
      ensures ok && old(lh) != [] ==> done == CommitWrites(c, old(lh), old(bc.view))
    {
      if |lh| == 0 {
        return true, [];
      }
      ok, done := CommitSome();
    }

    method CommitSome() returns (ok: bool, ghost done: seq<Write>)
      requires Valid() && LhOk(c, lh)
      modifies this`lh, this`writes, bc
      ensures !ok ==> OutOfBuffers()
      ensures writes == old(writes) + done && bc.disk == Apply(old(bc.disk), done)
      ensures done <= CommitWrites(c, old(lh), old(bc.view))
      ensures ok ==> Valid() && bc.users == old(bc.users) && lh == [] && done == CommitWrites(c, old(lh), old(bc.view))
    {
      ghost var v0, d0, w0 := bc.view, bc.disk, writes;
      ok, done := WriteTransaction();
      if ok {
        CommitHalves(c, lh, v0, bc.view);
        ok, done := CommitRest(d0, w0, done);
      }
    }

    /** commit() after the header has been written, given the writes so far. */
    method CommitRest(ghost d0: seq<Block>, ghost w0: seq<Write>, ghost first: seq<Write>) returns (ok: bool,
                      ghost done: seq<Write>)
      requires Valid() && LhOk(c, lh) && bc.disk == Apply(d0, first) && writes == w0 + first
      modifies this`lh, this`writes, bc
      ensures !ok ==> OutOfBuffers()
      ensures writes == w0 + done && bc.disk == Apply(d0, done)
      ensures done <= first + SecondHalf(c, old(lh), old(bc.view))
      ensures ok ==> Valid() && bc.users == old(bc.users)
      ensures ok ==> lh == [] && done == first + SecondHalf(c, old(lh), old(bc.view))
    {
      ghost var second, more := SecondHalf(c, lh, bc.view), [];
      ok, more := InstallAndClear();
      ApplyConcat(d0, first, more);
      PrefixConcat(first, more, second);
      done := first + more;
      assert w0 + first + more == w0 + done;
    }

    /** recover_from_log(), run at boot before anything is cached. */
    method Recover(ghost committed: seq<Block>) returns (ok: bool, ghost done: seq<Write>)
      requires Valid() && bc.view == bc.disk && LogSafety.CrashSafe(c, bc.disk, committed)
      modifies this`lh, this`writes, bc
      ensures !ok ==> OutOfBuffers()
      ensures writes == old(writes) + done && bc.disk == Apply(old(bc.disk), done)
      ensures done <= RecoverWrites(c, old(bc.disk))
      ensures ok ==> Valid() && bc.users == old(bc.users) && lh == [] && done == RecoverWrites(c, old(bc.disk))
    {
      var head := ReadHead();
      if head != HeadRead {
        return false, [];
      }
      ok, done := InstallAndClear();
    }
  }

  lemma {:induction false} ApplyConcat(disk: seq<Block>, a: seq<Write>, b: seq<Write>)
    ensures Apply(disk, a + b) == Apply(Apply(disk, a), b)
    decreases |b|
  {
    if b == [] {
      assert a + b == a;
    } else {
      var n := |b| - 1;
      ApplyConcat(disk, a, b[..n]);
      assert (a + b)[..|a + b| - 1] == a + b[..n];
    }
  }

  /** The home writes of a transaction: each block gets its cached content. */
  ghost function HomeWrites(lh: seq<int>, view: seq<Block>, n: nat): (r: seq<Write>)
    requires n <= |lh| && InRange(lh, |view|)
    ensures |r| == n
  {
    if n == 0 then []
    else HomeWrites(lh, view, n - 1) + [Write(lh[n - 1], view[lh[n - 1]])]
  }

  /** Log copies, then the header. */
  ghost function FirstHalf(c: Config, lh: seq<int>, view: seq<Block>): (r: seq<Write>)
    requires |lh| <= LOGSIZE && InRange(lh, |view|) && c.start < |view|
    ensures |r| == |lh| + 1
  {
    LogWrites(c, lh, view, |lh|) + [Write(c.start, EncodeHead(view[c.start], lh))]
  }

  /** Home blocks from the log slots, then an empty header. */
  ghost function SecondHalf(c: Config, lh: seq<int>, log: seq<Block>): (r: seq<Write>)
    requires Slot(c, |lh|) <= |log| && InRange(lh, |log|)
    ensures |r| == |lh| + 1
  {
    InstallWrites(c, lh, log, |lh|) + [Write(c.start, EncodeHead(log[c.start], []))]
  }

  /** The disk writes of recovery from a given disk. */
  ghost function RecoverWrites(c: Config, disk: seq<Block>): (r: seq<Write>)
    requires c.start < |disk| && HeadOk(disk[c.start])
    requires Slot(c, |Head(disk[c.start])|) <= |disk| && InRange(Head(disk[c.start]), |disk|)
  {
    SecondHalf(c, Head(disk[c.start]), disk)
  }

  lemma {:induction false} InstallWritesPrefix(c: Config, lh: seq<int>, log: seq<Block>, n: nat)
    requires n <= |lh| && Slot(c, |lh|) <= |log| && InRange(lh, |log|)
    ensures InstallWrites(c, lh, log, n) <= InstallWrites(c, lh, log, |lh|)
    decreases |lh| - n
  {
    if n < |lh| {
      InstallWritesPrefix(c, lh, log, n + 1);
    }
  }

  /** The disk writes of commit(): log copies, header, home blocks, empty header. */
  ghost function CommitWrites(c: Config, lh: seq<int>, view: seq<Block>): (r: seq<Write>)
    requires |lh| <= LOGSIZE && InRange(lh, |view|) && c.start < |view|
    ensures |r| == 2 * |lh| + 2
  {
    FirstHalf(c, lh, view) + HomeWrites(lh, view, |lh|) +
    [Write(c.start, EncodeHead(EncodeHead(view[c.start], lh), []))]
  }

  lemma {:induction false} LogWritesPrefix(c: Config, lh: seq<int>, view: seq<Block>, n: nat)
    requires n <= |lh| && InRange(lh, |view|)
    ensures LogWrites(c, lh, view, n) <= LogWrites(c, lh, view, |lh|)
    decreases |lh| - n
  {
    if n < |lh| {
      LogWritesPrefix(c, lh, view, n + 1);
    }
  }

  /** Installing from slots that hold the cached content writes that content. */
  lemma {:induction false} InstallsHome(c: Config, lh: seq<int>, v0: seq<Block>, v1: seq<Block>, n: nat)
    requires n <= |lh| && Slot(c, |lh|) <= |v1| == |v0| && InRange(lh, |v0|)
    requires forall k :: 0 <= k < |lh| ==> v1[Slot(c, k)] == v0[lh[k]]
    ensures InstallWrites(c, lh, v1, n) == HomeWrites(lh, v0, n)
  {
    if 0 < n {
      InstallsHome(c, lh, v0, v1, n - 1);
    }
  }

  lemma CommitHalves(c: Config, lh: seq<int>, v0: seq<Block>, v1: seq<Block>)
    requires |lh| <= LOGSIZE && Slot(c, |lh|) <= |v1| == |v0| && InRange(lh, |v0|)
    requires forall k :: 0 <= k < |lh| ==> v1[Slot(c, k)] == v0[lh[k]]
    requires v1[c.start] == EncodeHead(v0[c.start], lh)
    ensures CommitWrites(c, lh, v0) == FirstHalf(c, lh, v0) + SecondHalf(c, lh, v1)
  {
    InstallsHome(c, lh, v0, v1, |lh|);
  }

  /** The log area is unchanged. */
  ghost predicate SameLog(c: Config, v0: seq<Block>, v: seq<Block>) {
    |v| == |v0| && forall b :: 0 <= b < |v| && c.start <= b < c.start + c.size ==> v[b] == v0[b]
  }

  /** v is v0 with the first n log slots holding the logged blocks. */
  ghost predicate Logging(c: Config, lh: seq<int>, v0: seq<Block>, v: seq<Block>, n: nat) {
    && n <= |lh| && |v| == |v0| && Slot(c, |lh|) <= |v| && InRange(lh, |v|)
    && (forall k :: 0 <= k < n ==> v[Slot(c, k)] == v0[lh[k]])
    && (forall b :: 0 <= b < |v| && !(c.start < b < c.start + c.size) ==> v[b] == v0[b])
  }
}
