/**
  bio.c: the buffer cache as a doubly linked list of buffers, most recently used
  first.  Buffers are numbered 0..nbuf-1 and `nbuf` stands for bcache.head.  The
  methods are the critical sections; a call that would wait for another process
  (a held sleep-lock) is a precondition here and a step in LogProtocol.
*/
module BufferCache {
  import opened Options
  import LogProtocol

  type Block = LogProtocol.Block

  datatype Buf = Buf(dev: nat, blockno: nat, valid: bool, dirty: bool,
                     refcnt: nat, locked: bool, data: Block)

  const NODEV: nat := 0    // the dev of a buffer that has never been used
  const DISK: nat := 1     // the one device iderw() accepts

  /** next and prev link the elements of ring in a circle, each passed once. */
  ghost predicate Linked(ring: seq<nat>, next: seq<nat>, prev: seq<nat>) {
    && 0 < |ring| && |next| == |prev|
    && (forall i :: 0 <= i < |ring| ==> ring[i] < |next|)
    && (forall i, j :: 0 <= i < j < |ring| ==> ring[i] != ring[j])
    && (forall i {:trigger Succ(i, |ring|)} :: 0 <= i < |ring| ==> next[ring[i]] == ring[Succ(i, |ring|)])
    && (forall i {:trigger Succ(i, |ring|)} :: 0 <= i < |ring| ==> prev[ring[Succ(i, |ring|)]] == ring[i])
  }

  function Succ(i: nat, n: nat): (r: nat)
    requires i < n
    ensures r < n
  {
    if i + 1 == n then 0 else i + 1
  }

  /** Every buffer and the head are on the circle. */
  ghost predicate Covers(ring: seq<nat>, n: nat) {
    forall b :: 0 <= b < n ==> b in ring
  }

  /** A buffer bget() may take for another block. */
  predicate Recyclable(b: Buf) {
    b.refcnt == 0 && !b.dirty
  }

  ghost predicate BufsOk(buf: seq<Buf>, disk: seq<Block>) {
    && (forall i :: 0 <= i < |buf| ==>
          (buf[i].locked ==> 0 < buf[i].refcnt) &&
          (buf[i].valid ==> buf[i].dev == DISK && buf[i].blockno < |disk|) &&
          (buf[i].dirty ==> buf[i].valid) &&
          (buf[i].valid && !buf[i].dirty && !buf[i].locked ==> buf[i].data == disk[buf[i].blockno]))
    && (forall i, j :: 0 <= i < j < |buf| && buf[i].dev != NODEV ==>
          buf[i].dev != buf[j].dev || buf[i].blockno != buf[j].blockno)
  }

  ghost predicate Holds(b: Buf, dev: nat, blockno: nat) {
    b.dev == dev && b.blockno == blockno
  }

  /** The block is not cached and no buffer can be taken for it. */
  ghost predicate NoRoom(buf: seq<Buf>, dev: nat, blockno: nat) {
    forall i :: 0 <= i < |buf| ==> !Holds(buf[i], dev, blockno) && !Recyclable(buf[i])
  }

  ghost predicate Copy(buf: seq<Buf>, i: int, blockno: nat) {
    0 <= i < |buf| && buf[i].valid && buf[i].blockno == blockno
  }

  /** view gives the content of every block: cached data if valid, else the disk. */
  ghost predicate IsView(buf: seq<Buf>, disk: seq<Block>, view: seq<Block>) {
    && |view| == |disk|
    && (forall i, n: nat :: Copy(buf, i, n) ==> n < |view| && buf[i].data == view[n])
    && (forall n :: 0 <= n < |disk| ==> disk[n] == view[n] || exists i :: Copy(buf, i, n))
  }

  /** Replacing buffer i keeps the view if the new buffer has the same data, or
      the old one had nothing the disk does not have. */
  lemma ReplaceKeepsView(buf: seq<Buf>, disk: seq<Block>, view: seq<Block>, i: nat, b: Buf)
    requires i < |buf| && IsView(buf, disk, view)
    requires b.valid ==> b.blockno < |view| && b.data == view[b.blockno]
    requires buf[i].valid && !(b.valid && b.blockno == buf[i].blockno) ==>
      buf[i].blockno < |disk| && buf[i].data == disk[buf[i].blockno]
    ensures IsView(buf[i := b], disk, view)
  {
    var buf' := buf[i := b];
    assert forall j, n: nat :: j != i ==> (Copy(buf', j, n) <==> Copy(buf, j, n));
    forall n | 0 <= n < |disk| ensures disk[n] == view[n] || exists j :: Copy(buf', j, n) {
      if disk[n] != view[n] {
        var j :| Copy(buf, j, n);
        assert Copy(buf', j, n);
      }
    }
  }

  // ---------------------------------------------------------------- list surgery

  /** Taking the element at position k out of the ring. */
  function Without(ring: seq<nat>, k: nat): (r: seq<nat>)
    requires k < |ring|
  {
    ring[..k] + ring[k + 1..]
  }

  /** Putting b right behind the head. */
  function Pushed(ring: seq<nat>, b: nat): (r: seq<nat>)
    requires 0 < |ring|
  {
    [ring[0], b] + ring[1..]
  }

  lemma PushLinks(ring: seq<nat>, next: seq<nat>, prev: seq<nat>, b: nat, next': seq<nat>, prev': seq<nat>)
    requires Linked(ring, next, prev) && b < |next| && b !in ring
    requires next' == next[b := next[ring[0]]][ring[0] := b]
    requires next[ring[0]] < |prev| && prev' == prev[b := ring[0]][next[ring[0]] := b]
    ensures Linked(Pushed(ring, b), next', prev')
  {
    var r := Pushed(ring, b);
    assert next[ring[0]] == ring[Succ(0, |ring|)];
    assert forall i :: 2 <= i < |r| ==> r[i] == ring[i - 1];
    forall i | 0 <= i < |r|
      ensures next'[r[i]] == r[Succ(i, |r|)] && prev'[r[Succ(i, |r|)]] == r[i]
    {
      if 2 <= i {
        assert next[ring[i - 1]] == ring[Succ(i - 1, |ring|)];
      }
    }
  }

  /** What Unlink writes: the neighbours of ring[k] point past it. */
  ghost predicate Bypassed(ring: seq<nat>, next: seq<nat>, prev: seq<nat>, k: nat, next': seq<nat>, prev': seq<nat>) {
    && 0 < k < |ring| && ring[k] < |next| && ring[k] < |prev|
    && next[ring[k]] < |prev| && prev' == prev[next[ring[k]] := prev[ring[k]]]
    && prev[ring[k]] < |next| && next' == next[prev[ring[k]] := next[ring[k]]]
  }

  lemma BypassNext(ring: seq<nat>, next: seq<nat>, prev: seq<nat>, k: nat, next': seq<nat>, prev': seq<nat>, i: nat)
    requires Linked(ring, next, prev) && Bypassed(ring, next, prev, k, next', prev') && i < |ring| - 1
    ensures var r := Without(ring, k); |r| == |ring| - 1 && r[i] < |next'| && next'[r[i]] == r[Succ(i, |r|)]
  {
    var r, n := Without(ring, k), |ring|;
    assert prev[ring[Succ(k - 1, n)]] == ring[k - 1];
    assert next[ring[k]] == ring[Succ(k, n)];
    assert r[i] == ring[if i < k then i else i + 1];
    assert next[r[i]] == ring[Succ(if i < k then i else i + 1, n)];
  }

  lemma BypassPrev(ring: seq<nat>, next: seq<nat>, prev: seq<nat>, k: nat, next': seq<nat>, prev': seq<nat>, i: nat)
    requires Linked(ring, next, prev) && Bypassed(ring, next, prev, k, next', prev') && i < |ring| - 1
    ensures var r := Without(ring, k); |r| == |ring| - 1 && r[Succ(i, |r|)] < |prev'| && prev'[r[Succ(i, |r|)]] == r[i]
  {
    var r, n := Without(ring, k), |ring|;
    assert prev[ring[Succ(k - 1, n)]] == ring[k - 1];
    assert next[ring[k]] == ring[Succ(k, n)];
    assert r[i] == ring[if i < k then i else i + 1];
    assert prev[ring[Succ(if i < k then i else i + 1, n)]] == r[i];
  }

  lemma UnlinkLinks(ring: seq<nat>, next: seq<nat>, prev: seq<nat>, k: nat, next': seq<nat>, prev': seq<nat>)
    requires Linked(ring, next, prev) && Bypassed(ring, next, prev, k, next', prev')
    ensures Linked(Without(ring, k), next', prev')
    ensures ring[k] !in Without(ring, k)
  {
    var r := Without(ring, k);
    forall i | 0 <= i < |r| ensures next'[r[i]] == r[Succ(i, |r|)] && prev'[r[Succ(i, |r|)]] == r[i] {
      BypassNext(ring, next, prev, k, next', prev', i);
      BypassPrev(ring, next, prev, k, next', prev', i);
    }
  }

  class Bcache {
    const nbuf: nat
    var buf: seq<Buf>
    var next: seq<nat>
    var prev: seq<nat>
    var disk: seq<Block>
    ghost var ring: seq<nat>      // the head and the buffers, in list order
    ghost var view: seq<Block>    // the content of every block, cached or not
    ghost var users: seq<nat>     // how many have got each buffer and not released it

    ghost predicate Valid()
      reads this
    {
      && |buf| == |users| == nbuf
      && (forall i :: 0 <= i < nbuf ==> buf[i].refcnt == users[i])
      && |next| == |ring| == nbuf + 1 && ring[0] == nbuf
      && Linked(ring, next, prev) && Covers(ring, nbuf + 1)
      && BufsOk(buf, disk) && IsView(buf, disk, view)
    }

    /** binit(): each buffer in turn is pushed behind the head. */
    constructor (nbuf: nat, disk: seq<Block>)
      ensures Valid() && this.nbuf == nbuf && this.disk == this.view == disk
      ensures forall i :: 0 <= i < nbuf ==>
        ring[i + 1] == nbuf - 1 - i && Recyclable(buf[i]) && !buf[i].valid && !buf[i].locked && users[i] == 0
    {
      this.nbuf := nbuf;
      this.disk := disk;
      var zero: Block := seq(LogProtocol.WORDS, _ => 0);
      buf := seq(nbuf, _ => Buf(NODEV, 0, false, false, 0, false, zero));
      next := seq(nbuf + 1, _ => nbuf);
      prev := seq(nbuf + 1, _ => nbuf);
      ring := [nbuf];
      view := disk;
      users := seq(nbuf, _ => 0);
      new;
      label start:
      var b := 0;
      while b < nbuf
        invariant 0 <= b <= nbuf && |next| == nbuf + 1
        invariant this.nbuf == nbuf && this.disk == this.view == disk
        invariant buf == old@start(buf) && users == old@start(users)
        invariant |ring| == b + 1 && ring[0] == nbuf
        invariant forall i :: 1 <= i <= b ==> ring[i] == b - i
        invariant Linked(ring, next, prev)
      {
        PushFront(b);
        b := b + 1;
      }
      forall i | 0 <= i < nbuf + 1 ensures i in ring {
        assert ring[if i == nbuf then 0 else nbuf - i] == i;
      }
    }

    /** The first loop of bget(): walk forward from the head. */
    method FindCached(dev: nat, blockno: nat) returns (r: Option<nat>)
      requires Valid()
      ensures r.None? ==> forall i :: 0 <= i < nbuf ==> !Holds(buf[i], dev, blockno)
      ensures r.Some? ==> r.value < nbuf && Holds(buf[r.value], dev, blockno)
    {
      var b := next[nbuf];
      ghost var k := Succ(0, |ring|);
      assert b == ring[k];
      while b != nbuf
        invariant 0 <= k < |ring| && b == ring[k]
        invariant forall i :: 1 <= i < Upto(k, |ring|) ==> !Holds(buf[ring[i]], dev, blockno)
        decreases Upto(k, |ring|) == k, |ring| - k
      {
        if buf[b].dev == dev && buf[b].blockno == blockno {
          return Some(b);
        }
        assert next[ring[k]] == ring[Succ(k, |ring|)];
        b := next[b];
        k := Succ(k, |ring|);
      }
      forall i | 0 <= i < nbuf ensures !Holds(buf[i], dev, blockno) {
        assert i in ring;
        var m :| 0 <= m < |ring| && ring[m] == i;
      }
      return None;
    }

    /** The second loop of bget(): walk backward from the head. */
    method FindRecyclable() returns (r: Option<nat>)
      requires Valid()
      ensures r.None? ==> forall i :: 0 <= i < nbuf ==> !Recyclable(buf[i])
      ensures r.Some? ==> r.value < nbuf && Recyclable(buf[r.value]) && exists k :: LeastRecent(buf, ring, k, r.value)
    {
      var b := prev[nbuf];
      ghost var k := |ring| - 1;
      assert prev[ring[Succ(k, |ring|)]] == ring[k];
      while b != nbuf
        invariant 0 <= k < |ring| && b == ring[k]
        invariant forall i :: k < i < |ring| ==> !Recyclable(buf[ring[i]])
        decreases k
      {
        if buf[b].refcnt == 0 && !buf[b].dirty {
          assert LeastRecent(buf, ring, k, b);
          return Some(b);
        }
        assert prev[ring[Succ(k - 1, |ring|)]] == ring[k - 1];
        b := prev[b];
        k := k - 1;
      }
      forall i | 0 <= i < nbuf ensures !Recyclable(buf[i]) {
        assert i in ring;
        var m :| 0 <= m < |ring| && ring[m] == i;
      }
      return None;
    }

    /** bget(), up to the release of bcache.lock: the buffer of a cached block,
        else the least recently used one that is neither in use nor pinned,
        else a panic.  No block changes its content. */
    method Bget(dev: nat, blockno: nat) returns (r: Option<nat>)
      requires Valid() && dev != NODEV
      modifies this`buf, this`users
      ensures Valid()
      ensures r.None? <==> NoRoom(old(buf), dev, blockno)
      ensures r.None? ==> buf == old(buf) && users == old(users)
      ensures r.Some? ==> r.value < nbuf && Holds(buf[r.value], dev, blockno)
      ensures r.Some? ==> users == old(users)[r.value := old(users)[r.value] + 1]
      ensures r.Some? ==> buf == old(buf)[r.value := buf[r.value]]
      ensures r.Some? ==>
        if Holds(old(buf)[r.value], dev, blockno) then
          buf[r.value] == old(buf)[r.value].(refcnt := old(buf)[r.value].refcnt + 1)
        else
          (forall i :: 0 <= i < nbuf ==> !Holds(old(buf)[i], dev, blockno)) &&
          Recyclable(old(buf)[r.value]) && !buf[r.value].valid && !buf[r.value].locked &&
          exists k :: LeastRecent(old(buf), ring, k, r.value)
    {
      r := FindCached(dev, blockno);
      if r.Some? {
        Share(r.value);
        return;
      }
      r := Recycle(dev, blockno);
    }

    /** b->refcnt++ */
    method Share(b: nat)
      requires Valid() && b < nbuf
      modifies this`buf, this`users
      ensures Valid() && users == old(users)[b := old(users)[b] + 1]
      ensures buf == old(buf)[b := old(buf)[b].(refcnt := old(buf)[b].refcnt + 1)]
    {
      assert buf[b].valid ==> Copy(buf, b, buf[b].blockno);
      ReplaceKeepsView(buf, disk, view, b, buf[b].(refcnt := buf[b].refcnt + 1));
      buf := buf[b := buf[b].(refcnt := buf[b].refcnt + 1)];
      users := users[b := users[b] + 1];
    }

    /** The rest of bget() for a block that is not cached. */
    method Recycle(dev: nat, blockno: nat) returns (r: Option<nat>)
      requires Valid() && dev != NODEV && forall i :: 0 <= i < nbuf ==> !Holds(buf[i], dev, blockno)
      modifies this`buf, this`users
      ensures Valid()
      ensures r.None? <==> NoRoom(old(buf), dev, blockno)
      ensures r.None? ==> buf == old(buf) && users == old(users)
      ensures r.Some? ==> r.value < nbuf && Holds(buf[r.value], dev, blockno)
      ensures r.Some? ==> users == old(users)[r.value := old(users)[r.value] + 1]
      ensures r.Some? ==> buf == old(buf)[r.value := buf[r.value]]
      ensures r.Some? ==> Recyclable(old(buf)[r.value]) && !buf[r.value].valid && !buf[r.value].locked
      ensures r.Some? ==> exists k :: LeastRecent(old(buf), ring, k, r.value)
    {
      r := FindRecyclable();
      if r.Some? {
        var b := r.value;
        var taken := buf[b].(dev := dev, blockno := blockno, valid := false, dirty := false, refcnt := 1);
        ReplaceKeepsView(buf, disk, view, b, taken);
        buf := buf[b := taken];
        users := users[b := users[b] + 1];
      }
    }

    /** The holder of a locked buffer changes its data. */
    method Overwrite(b: nat, data: Block)
      requires Valid() && b < nbuf && buf[b].valid && buf[b].locked
      modifies this`buf, this`view
      ensures Valid() && buf == old(buf)[b := old(buf)[b].(data := data)]
      ensures view == old(view)[buf[b].blockno := data]
    {
      buf := buf[b := buf[b].(data := data)];
      view := view[buf[b].blockno := data];
      assert forall j, n: nat :: Copy(buf, j, n) <==> Copy(old(buf), j, n);
      assert Copy(buf, b, buf[b].blockno);
    }

    /** B_DIRTY pins a buffer that is held. */
    method MarkDirty(b: nat)
      requires Valid() && b < nbuf && buf[b].valid && buf[b].locked
      modifies this`buf
      ensures Valid() && buf == old(buf)[b := old(buf)[b].(dirty := true)]
    {
      assert Copy(buf, b, buf[b].blockno);
      ReplaceKeepsView(buf, disk, view, b, buf[b].(dirty := true));
      buf := buf[b := buf[b].(dirty := true)];
    }

    /** Write b's contents to disk; it panics on a buffer that is not locked. */
    method Bwrite(b: nat) returns (ok: bool)
      requires Valid() && b < nbuf && buf[b].valid
      modifies this`buf, this`disk
      ensures ok == old(buf)[b].locked
      ensures ok ==> Valid() && disk == old(disk)[old(buf)[b].blockno := old(buf)[b].data]
      ensures ok ==> buf == old(buf)[b := old(buf)[b].(dirty := false)]
      ensures !ok ==> disk == old(disk)
    {
      if !buf[b].locked {
        return false;
      }
      assert Copy(buf, b, buf[b].blockno);
      disk := disk[buf[b].blockno := buf[b].data];
      buf := buf[b := buf[b].(dirty := false)];
      assert forall j, n: nat :: Copy(buf, j, n) <==> Copy(old(buf), j, n);
      return true;
    }

    /** brelse(): the last user moves the buffer to the front.  Clients have
        logged (dirty) or written what they changed. */
    method Brelse(b: nat) returns (ok: bool)
      requires Valid() && b < nbuf
      requires buf[b].valid && !buf[b].dirty ==> buf[b].data == disk[buf[b].blockno]
      modifies this`buf, this`next, this`prev, this`ring, this`users
      ensures ok == old(buf)[b].locked
      ensures ok ==> Valid() && 0 < old(users)[b] && users == old(users)[b := old(users)[b] - 1]
      ensures ok ==> buf == old(buf)[b := old(buf)[b].(locked := false, refcnt := old(buf)[b].refcnt - 1)]
      ensures ok ==> if buf[b].refcnt == 0 then MovedToFront(old(ring), ring, b) else ring == old(ring)
    {
      if !buf[b].locked {
        return false;
      }
      var b' := buf[b].(locked := false, refcnt := buf[b].refcnt - 1);
      assert buf[b].valid ==> Copy(buf, b, buf[b].blockno);
      ReplaceKeepsView(buf, disk, view, b, b');
      buf := buf[b := b'];
      users := users[b := users[b] - 1];
      if buf[b].refcnt == 0 {
        MoveToFront(b);
      }
      return true;
    }

    /** The end of brelse() for the last user: b becomes the most recently used. */
    method MoveToFront(b: nat)
      requires Valid() && b < nbuf
      modifies this`next, this`prev, this`ring
      ensures Valid() && MovedToFront(old(ring), ring, b)
    {
      assert b in ring;
      ghost var k :| 0 <= k < |ring| && ring[k] == b;
      Unlink(b, k);
      PushFront(b);
      assert MovedTo(old(ring), ring, k);
      MovedCovers(old(ring), ring, k, nbuf + 1);
    }

    /** Take b out of the list. */
    method Unlink(b: nat, ghost k: nat)
      requires |next| == nbuf + 1 && Linked(ring, next, prev) && 0 < k < |ring| && ring[k] == b
      modifies this`next, this`prev, this`ring
      ensures |next| == nbuf + 1 && Linked(ring, next, prev)
      ensures ring == Without(old(ring), k) && b !in ring
    {
      ghost var n0, p0 := next, prev;
      assert next[ring[k]] == ring[Succ(k, |ring|)];
      assert prev[ring[Succ(k - 1, |ring|)]] == ring[k - 1];
      prev := prev[next[b] := prev[b]];
      next := next[prev[b] := next[b]];
      UnlinkLinks(ring, n0, p0, k, next, prev);
      ring := Without(ring, k);
    }

    /** Put b right behind the head. */
    method PushFront(b: nat)
      requires |next| == nbuf + 1 && Linked(ring, next, prev) && ring[0] == nbuf && b < nbuf && b !in ring
      modifies this`next, this`prev, this`ring
      ensures |next| == nbuf + 1 && Linked(ring, next, prev)
      ensures ring == Pushed(old(ring), b)
    {
      ghost var n0, p0 := next, prev;
      assert next[ring[0]] == ring[Succ(0, |ring|)];
      next := next[b := next[nbuf]];
      prev := prev[b := nbuf];
      prev := prev[next[nbuf] := b];
      next := next[nbuf := b];
      PushLinks(ring, n0, p0, b, next, prev);
      ring := Pushed(ring, b);
    }

    /** bread() of a block nobody holds: its content, in a locked buffer.  It
        panics only for want of a buffer or on a block the disk does not have. */
    method Bread(dev: nat, blockno: nat) returns (r: Option<nat>)
      requires Valid() && dev != NODEV
      requires forall i :: 0 <= i < nbuf && Holds(buf[i], dev, blockno) ==> !buf[i].locked
      modifies this`buf, this`users
      ensures r.None? <==> (dev != DISK || |disk| <= blockno || NoRoom(old(buf), dev, blockno))
      ensures NoRoom(old(buf), dev, blockno) ==> buf == old(buf)
      ensures r.Some? ==> Valid() && r.value < nbuf && buf == old(buf)[r.value := buf[r.value]]
      ensures r.Some? ==> users == old(users)[r.value := old(users)[r.value] + 1]
      ensures r.Some? ==> Holds(buf[r.value], dev, blockno) && buf[r.value].locked && buf[r.value].valid
      ensures r.Some? ==> buf[r.value].dirty == (Holds(old(buf)[r.value], dev, blockno) && old(buf)[r.value].dirty)
      ensures r.Some? ==> !Holds(old(buf)[r.value], dev, blockno) ==> Recyclable(old(buf)[r.value])
      ensures r.Some? ==> buf[r.value].data == view[blockno]
      ensures r.Some? && !buf[r.value].dirty ==> buf[r.value].data == disk[blockno]
    {
      r := Bget(dev, blockno);
      if r.None? {
        return;
      }
      var b := r.value;
      var full := buf[b].(locked := true);
      if !buf[b].valid {
        if dev != DISK || |disk| <= blockno {
          return None;
        }
        full := full.(valid := true, data := disk[blockno]);
        assert forall j :: !Copy(buf, j, blockno);
      } else {
        assert Copy(buf, b, blockno);
      }
      ReplaceKeepsView(buf, disk, view, b, full);
      buf := buf[b := full];
    }

    /** readsb() and every other bread() with its brelse(): the content of the block.
        Each buffer is in use by as many as before, one that can be recycled is left if
        there was one, and nothing changes its content. */
    method ReadBlock(dev: nat, blockno: nat) returns (r: Option<Block>)
      requires Valid() && dev != NODEV
      requires forall i :: 0 <= i < nbuf && Holds(buf[i], dev, blockno) ==> !buf[i].locked
      modifies this`buf, this`next, this`prev, this`ring, this`users
      ensures r.None? <==> (dev != DISK || |disk| <= blockno || NoRoom(old(buf), dev, blockno))
      ensures r.Some? ==> Valid() && blockno < |view| && r.value == view[blockno]
      ensures r.Some? ==> users == old(users)
      ensures r.Some? ==> forall i :: 0 <= i < nbuf ==>
        && buf[i].refcnt == old(buf)[i].refcnt
        && (Recyclable(old(buf)[i]) ==> Recyclable(buf[i]))
    {
      var b := Bread(dev, blockno);
      if b.None? {
        return None;
      }
      r := Some(buf[b.value].data);
      var ok := Brelse(b.value);
    }
  }

  /** The positions before k, or all of them once the walk is back at the head. */
  function Upto(k: nat, n: nat): nat {
    if k == 0 then n else k
  }

  ghost predicate MovedTo(ring: seq<nat>, ring': seq<nat>, k: int) {
    0 < k < |ring| && ring' == [ring[0], ring[k]] + ring[1..k] + ring[k + 1..]
  }

  lemma MovedCovers(ring: seq<nat>, ring': seq<nat>, k: int, n: nat)
    requires Covers(ring, n) && MovedTo(ring, ring', k)
    ensures Covers(ring', n) && |ring'| == |ring|
  {
    forall b | 0 <= b < n ensures b in ring' {
      assert b in ring;
      var i :| 0 <= i < |ring| && ring[i] == b;
      assert ring'[if i == 0 then 0 else if i == k then 1 else if i < k then i + 1 else i] == b;
    }
  }

  /** b is now first behind the head and all others keep their order. */
  ghost predicate MovedToFront(ring: seq<nat>, ring': seq<nat>, b: nat) {
    exists k :: MovedTo(ring, ring', k) && ring[k] == b
  }

  /** b is the last recyclable buffer in the order of use. */
  ghost predicate LeastRecent(buf: seq<Buf>, ring: seq<nat>, k: int, b: nat) {
    0 < k < |ring| && ring[k] == b &&
    forall i :: k < i < |ring| && ring[i] < |buf| ==> !Recyclable(buf[ring[i]])
  }
}
