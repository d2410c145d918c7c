/** What an allocation or a write does to the mappings and the bytes of all files. */
module FileUpdates {
  import opened DiskBytes
  import opened FileChain
  import opened FileContents

  // ---------------------------------------------------------------- the free map

  /** Marking a free block used, in the block of the map that has its bit. */
  lemma MarkKeepsMap(l: Layout, disk: seq<Block>, role: seq<Role>, b: nat, r: Role)
    requires MapOk(l, disk, role) && b < l.size && role[b] == Free && (r.Index? || r.Data?)
    ensures l.bmapstart + b / BPB < l.nmeta
    ensures MapOk(l, disk[l.bmapstart + b / BPB := MapOn(disk[l.bmapstart + b / BPB], b % BPB)], role[b := r])
  {
    var m := l.bmapstart + b / BPB;
    var disk' := disk[m := MapOn(disk[m], b % BPB)];
    forall x | 0 <= x < l.size ensures Marked(l, disk', x) <==> role[b := r][x] != Free {
      assert Marked(l, disk, x) <==> role[x] != Free;
      assert x / BPB == b / BPB && x % BPB == b % BPB ==> x == b;
    }
  }

  lemma ClearKeepsMap(l: Layout, disk: seq<Block>, role: seq<Role>, b: nat)
    requires MapOk(l, disk, role) && l.nmeta <= b < l.size
    ensures l.bmapstart + b / BPB < l.nmeta
    ensures MapOk(l, disk[l.bmapstart + b / BPB := MapOff(disk[l.bmapstart + b / BPB], b % BPB)], role[b := Free])
  {
    var m := l.bmapstart + b / BPB;
    var disk' := disk[m := MapOff(disk[m], b % BPB)];
    forall x | 0 <= x < l.size ensures Marked(l, disk', x) <==> role[b := Free][x] != Free {
      assert Marked(l, disk, x) <==> role[x] != Free;
      assert x / BPB == b / BPB && x % BPB == b % BPB ==> x == b;
    }
  }

  lemma DataKeepsMap(l: Layout, disk: seq<Block>, role: seq<Role>, b: nat, data: Block)
    requires MapOk(l, disk, role) && l.nmeta <= b < l.size
    ensures MapOk(l, disk[b := data], role)
  {
    forall x | 0 <= x < l.size ensures Marked(l, disk[b := data], x) <==> role[x] != Free {
      assert Marked(l, disk, x) <==> role[x] != Free;
    }
  }

  // ---------------------------------------------------------------- what allocation keeps

  /** Blocks in use keep their role, and file data keeps its bytes. */
  ghost predicate Grown(disk: seq<Block>, role: seq<Role>, disk': seq<Block>, role': seq<Role>) {
    && |disk| == |role| == |disk'| == |role'|
    && (forall b :: 0 <= b < |role| && role[b] != Free ==> role'[b] == role[b])
    && (forall b :: 0 <= b < |role| && role[b].Data? ==> disk'[b] == disk[b])
  }

  lemma GrownTrans(d0: seq<Block>, role0: seq<Role>, d1: seq<Block>, role1: seq<Role>, d2: seq<Block>, role2: seq<Role>)
    requires Grown(d0, role0, d1, role1) && Grown(d1, role1, d2, role2)
    ensures Grown(d0, role0, d2, role2)
  {
  }

  /** Without its head pointer a file leads nowhere, so the head can be free. */
  lemma DropHead(disk: seq<Block>, ins: map<nat, Inode>, role: seq<Role>, n: nat, ins': map<nat, Inode>,
                 role': seq<Role>)
    requires Linked(disk, ins, role) && n in ins && ins[n].addrs[0] != 0
    requires ins' == ins[n := ins[n].(addrs := ins[n].addrs[0 := 0])] && role' == role[ins[n].addrs[0] := Free]
    ensures Linked(disk, ins', role')
  {
    var head := ins[n].addrs[0];
    assert forall p, q :: q != Index(n, 0) && PtrOk(p, role, q) ==> PtrOk(p, role', q);
    forall b | 0 <= b < |role'| && role'[b].Index? ensures IndexOk(disk[b], role'[b].inum, role'[b].i, role') {
      assert IndexOk(disk[b], role[b].inum, role[b].i, role);
    }
  }

  lemma FreeKeepsOthers(l: Layout, d0: seq<Block>, ins0: map<nat, Inode>, role0: seq<Role>,
                        d: seq<Block>, ins: map<nat, Inode>, n: nat)
    requires Owned(l, d0, ins0, role0) && n in ins0 && |d| == |d0| && SameMaps(d0, ins0, d, ins0)
    requires forall x :: l.nmeta <= x < l.size ==> d[x] == d0[x]
    requires n in ins && ins == ins0[n := ins[n]]
    ensures OthersKept(d0, ins0, d, ins, n)
  {
    forall m | m in ins0 && m != n && Dense(d0, ins0[m])
      ensures Dense(d, ins[m]) && Contents(d, ins[m]) == Contents(d0, ins0[m])
    {
      forall k | 0 <= k && k * BSIZE < ins0[m].size ensures d[BlockAt(d0, ins0[m], k)] == d0[BlockAt(d0, ins0[m], k)] {
        BlockOwned(d0, ins0, role0, m, k);
      }
      SameContents(d0, ins0[m], d, ins[m]);
    }
  }

  /** itrunc() follows no chain: every data block of the file stays marked in the
      free map although no file leads to it any more, */
  lemma TruncLeaks(l: Layout, d0: seq<Block>, ins0: map<nat, Inode>, role0: seq<Role>,
                   d: seq<Block>, ins: map<nat, Inode>, role: seq<Role>, n: nat, bn: nat, m: nat, k: nat)
    requires Owned(l, d0, ins0, role0) && n in ins0 && ins0[n].addrs[0] != 0
    requires Owned(l, d, ins, role) && n in ins && ins[n].addrs[0] == 0 && role == role0[ins0[n].addrs[0] := Free]
    requires m in ins && BlockAt(d0, ins0[n], bn) != 0
    ensures var b := BlockAt(d0, ins0[n], bn);
      b < l.size && Marked(l, d, b) && BlockAt(d, ins[m], k) != b && Walk(d, ins[m].addrs[0], k) != b
  {
    BlockOwned(d0, ins0, role0, n, bn);
    BlockOwned(d, ins, role, m, k);
    WalkOwned(d, ins, role, m, k);
  }

  /** and so does every index block behind the head. */
  lemma TruncLeaksIndex(l: Layout, d0: seq<Block>, ins0: map<nat, Inode>, role0: seq<Role>,
                        d: seq<Block>, ins: map<nat, Inode>, role: seq<Role>, n: nat, q: nat, m: nat, k: nat)
    requires Owned(l, d0, ins0, role0) && n in ins0 && ins0[n].addrs[0] != 0
    requires Owned(l, d, ins, role) && n in ins && ins[n].addrs[0] == 0 && role == role0[ins0[n].addrs[0] := Free]
    requires m in ins && 0 < q && Walk(d0, ins0[n].addrs[0], q) != 0
    ensures var b := Walk(d0, ins0[n].addrs[0], q);
      b < l.size && Marked(l, d, b) && Walk(d, ins[m].addrs[0], k) != b && BlockAt(d, ins[m], k) != b
  {
    WalkOwned(d0, ins0, role0, n, q);
    WalkOwned(d0, ins0, role0, n, 0);
    WalkOwned(d, ins, role, m, k);
    BlockOwned(d, ins, role, m, k);
    if m == n {
      WalkSnoc(d, 0, k);
    }
  }

  ghost predicate Holds(disk: seq<Block>, ino: Inode, c: seq<byte>) {
    Dense(disk, ino) && Contents(disk, ino) == c
  }

  /** Files other than n keep their inode and their bytes. */
  ghost predicate OthersKept(d0: seq<Block>, ins0: map<nat, Inode>, d: seq<Block>, ins: map<nat, Inode>, n: nat) {
    && ins.Keys == ins0.Keys
    && (forall m :: m in ins0 && m != n ==> ins[m] == ins0[m])
    && (forall m :: m in ins0 && m != n && Dense(d0, ins0[m]) ==>
          Dense(d, ins[m]) && Contents(d, ins[m]) == Contents(d0, ins0[m]))
  }

  /** `done` has been written to file n at off0 since the disk was d0. */
  ghost predicate Spliced(l: Layout, d0: seq<Block>, ins0: map<nat, Inode>, n: nat, off0: nat, done: seq<byte>,
                          d: seq<Block>, ins: map<nat, Inode>, role: seq<Role>) {
    && Owned(l, d, ins, role) && OthersKept(d0, ins0, d, ins, n) && n in ins0 && n in ins && Dense(d0, ins0[n])
    && (if off0 <= ins0[n].size then Holds(d, ins[n], Splice(Contents(d0, ins0[n]), off0, done))
        else done == [] && d == d0 && ins == ins0)
  }

  lemma SplicedNext(l: Layout, d0: seq<Block>, ins0: map<nat, Inode>, n: nat, off0: nat, done: seq<byte>,
                    d1: seq<Block>, ins1: map<nat, Inode>, role1: seq<Role>, off: nat, piece: seq<byte>,
                    d: seq<Block>, ins: map<nat, Inode>, role: seq<Role>)
    requires Spliced(l, d0, ins0, n, off0, done, d1, ins1, role1) && off0 <= ins0[n].size
    requires Owned(l, d, ins, role) && OthersKept(d1, ins1, d, ins, n) && n in ins
    requires off == off0 + |done| && Holds(d, ins[n], Splice(Contents(d1, ins1[n]), off, piece))
    ensures Spliced(l, d0, ins0, n, off0, done + piece, d, ins, role)
  {
    OthersTrans(d0, ins0, d1, ins1, d, ins, n);
    SpliceTwice(Contents(d0, ins0[n]), off0, done, piece);
  }

  /** writei() has written `done` at off0 since the disk was d0; ip->size does not show
      it yet. */
  ghost predicate Underway(l: Layout, d0: seq<Block>, ins0: map<nat, Inode>, n: nat, off0: nat, done: seq<byte>,
                           d: seq<Block>, ins: map<nat, Inode>, role: seq<Role>) {
    && Owned(l, d, ins, role) && OthersKept(d0, ins0, d, ins, n)
    && n in ins0 && n in ins && ins[n].size == ins0[n].size
    && Dense(d0, ins0[n]) && off0 <= ins0[n].size
    && Holds(d, ins[n].(size := Larger(ins0[n].size, off0 + |done|)), Splice(Contents(d0, ins0[n]), off0, done))
  }

  /** itrunc() has gone over the first i addresses since the disk was d0. */
  ghost predicate Truncated(l: Layout, d0: seq<Block>, ins0: map<nat, Inode>, role0: seq<Role>, n: nat, i: nat,
                            d: seq<Block>, ins: map<nat, Inode>, role: seq<Role>) {
    && Owned(l, d, ins, role) && OthersKept(d0, ins0, d, ins, n)
    && n in ins0 && n in ins && 0 < |ins0[n].addrs|
    && (i == 0 ==> ins == ins0 && role == role0)
    && (0 < i ==> ins[n].addrs[0] == 0)
    && (0 < i && ins0[n].addrs[0] == 0 ==> role == role0)
    && (0 < i && ins0[n].addrs[0] != 0 ==> ins0[n].addrs[0] < |role0| && role == role0[ins0[n].addrs[0] := Free])
  }

  lemma OthersTrans(d0: seq<Block>, ins0: map<nat, Inode>, d1: seq<Block>, ins1: map<nat, Inode>,
                    d2: seq<Block>, ins2: map<nat, Inode>, n: nat)
    requires OthersKept(d0, ins0, d1, ins1, n) && OthersKept(d1, ins1, d2, ins2, n)
    ensures OthersKept(d0, ins0, d2, ins2, n)
  {
  }

  lemma OthersIgnore(d0: seq<Block>, ins0: map<nat, Inode>, d: seq<Block>, ins: map<nat, Inode>, ins': map<nat, Inode>,
                     n: nat)
    requires OthersKept(d0, ins0, d, ins, n) && n in ins && n in ins' && ins' == ins[n := ins'[n]]
    ensures OthersKept(d0, ins0, d, ins', n)
  {
  }

  /** bmap() changes no byte of any file. */
  lemma BmapKeepsContents(l: Layout, d0: seq<Block>, ins0: map<nat, Inode>, role0: seq<Role>,
                          d: seq<Block>, ins: map<nat, Inode>, role: seq<Role>,
                          n: nat, bn: nat, addr: nat, m: nat, sz: nat)
    requires Owned(l, d0, ins0, role0) && Grown(d0, role0, d, role) && OnlyMaps(d0, ins0, d, ins, n, bn, addr)
    requires n in ins0 && m in ins0 && (BlockAt(d0, ins0[n], bn) != 0 ==> addr == BlockAt(d0, ins0[n], bn))
    requires Dense(d0, ins0[m].(size := sz))
    ensures Dense(d, ins[m].(size := sz)) && Contents(d, ins[m].(size := sz)) == Contents(d0, ins0[m].(size := sz))
  {
    var ino, ino' := ins0[m].(size := sz), ins[m].(size := sz);
    forall k | 0 <= k && k * BSIZE < sz
      ensures BlockAt(d, ino', k) == BlockAt(d0, ino, k) && d[BlockAt(d0, ino, k)] == d0[BlockAt(d0, ino, k)]
    {
      SizeFree(d0, ins0[m], sz, k);
      SizeFree(d, ins[m], sz, k);
      BlockOwned(d0, ins0, role0, m, k);
    }
    SameContents(d0, ino, d, ino');
  }

  /** Where a block is does not depend on the size field. */
  lemma SizeFree(disk: seq<Block>, ino: Inode, sz: nat, k: nat)
    requires 0 < |ino.addrs|
    ensures BlockAt(disk, ino.(size := sz), k) == BlockAt(disk, ino, k)
  {
  }

  lemma BmapKeepsOthers(l: Layout, d0: seq<Block>, ins0: map<nat, Inode>, role0: seq<Role>,
                        d: seq<Block>, ins: map<nat, Inode>, role: seq<Role>, n: nat, bn: nat, addr: nat)
    requires Owned(l, d0, ins0, role0) && Grown(d0, role0, d, role) && OnlyMaps(d0, ins0, d, ins, n, bn, addr)
    requires n in ins0 && (BlockAt(d0, ins0[n], bn) != 0 ==> addr == BlockAt(d0, ins0[n], bn))
    requires n in ins && ins == ins0[n := ins[n]]
    ensures OthersKept(d0, ins0, d, ins, n)
  {
    forall m | m in ins0 && m != n && Dense(d0, ins0[m])
      ensures Dense(d, ins[m]) && Contents(d, ins[m]) == Contents(d0, ins0[m])
    {
      assert ins0[m].(size := ins0[m].size) == ins0[m];
      BmapKeepsContents(l, d0, ins0, role0, d, ins, role, n, bn, addr, m, ins0[m].size);
    }
  }

  /** Patching a data block of file n changes that file as it should, and no other. */
  lemma PatchKeeps(l: Layout, d1: seq<Block>, ins: map<nat, Inode>, role: seq<Role>, n: nat, off: nat, src: seq<byte>,
                   sz: nat,
                   d2: seq<Block>)
    requires Owned(l, d1, ins, role) && n in ins && Dense(d1, ins[n].(size := sz))
    requires off <= sz && off % BSIZE + |src| <= BSIZE
    requires var b := BlockAt(d1, ins[n], off / BSIZE);
      0 < b < |d1| && role[b] == Data(n, off / BSIZE) && d2 == d1[b := Patch(d1[b], off % BSIZE, src)]
    ensures Owned(l, d2, ins, role) && OthersKept(d1, ins, d2, ins, n)
    ensures var ino' := ins[n].(size := Larger(sz, off + |src|));
      Dense(d2, ino') && Contents(d2, ino') == Splice(Contents(d1, ins[n].(size := sz)), off, src)
  {
    var b := BlockAt(d1, ins[n], off / BSIZE);
    var data := Patch(d1[b], off % BSIZE, src);
    WriteKeepsMaps(d1, ins, role, b, data);
    DataKeepsMap(l, d1, role, b, data);
    PatchSplices(l, d1, ins, role, n, off, src, sz, d2);
    forall m | m in ins && m != n && Dense(d1, ins[m])
      ensures Dense(d2, ins[m]) && Contents(d2, ins[m]) == Contents(d1, ins[m])
    {
      forall k | 0 <= k && k * BSIZE < ins[m].size ensures d2[BlockAt(d1, ins[m], k)] == d1[BlockAt(d1, ins[m], k)] {
        BlockOwned(d1, ins, role, m, k);
      }
      SameContents(d1, ins[m], d2, ins[m]);
    }
  }

  lemma PatchSplices(l: Layout, d1: seq<Block>, ins: map<nat, Inode>, role: seq<Role>, n: nat, off: nat, src: seq<byte>,
                     sz: nat,
                     d2: seq<Block>)
    requires Owned(l, d1, ins, role) && n in ins && Dense(d1, ins[n].(size := sz))
    requires off <= sz && off % BSIZE + |src| <= BSIZE && SameMaps(d1, ins, d2, ins)
    requires var b := BlockAt(d1, ins[n], off / BSIZE);
      0 < b < |d1| && d2 == d1[b := Patch(d1[b], off % BSIZE, src)]
    ensures var ino' := ins[n].(size := Larger(sz, off + |src|));
      Dense(d2, ino') && Contents(d2, ino') == Splice(Contents(d1, ins[n].(size := sz)), off, src)
  {
    var ino, ino' := ins[n].(size := sz), ins[n].(size := Larger(sz, off + |src|));
    forall i, j | 0 <= i && 0 <= j && BlockAt(d1, ino, i) == BlockAt(d1, ino, j) != 0 ensures i == j {
      BlockOwned(d1, ins, role, n, i);
      BlockOwned(d1, ins, role, n, j);
    }
    forall k | 0 <= k ensures BlockAt(d2, ino', k) == BlockAt(d1, ino, k) {
      SizeFree(d1, ins[n], sz, k);
      SizeFree(d2, ins[n], ino'.size, k);
    }
    PatchWrites(d1, ino, off, src, d2, ino');
  }

  /** Block bn of file n is at addr now and all else is mapped as before. */
  ghost predicate OnlyMaps(disk: seq<Block>, inodes: map<nat, Inode>, disk': seq<Block>, inodes': map<nat, Inode>,
                           n: nat, bn: nat, addr: nat) {
    && inodes'.Keys == inodes.Keys
    && (forall m :: m in inodes ==> 0 < |inodes[m].addrs| && 0 < |inodes'[m].addrs|)
    && (forall m, k :: m in inodes && 0 <= k ==>
          BlockAt(disk', inodes'[m], k) == if m == n && k == bn then addr else BlockAt(disk, inodes[m], k))
  }

  lemma EntriesOnly(disk: seq<Block>, inodes: map<nat, Inode>, disk': seq<Block>, n: nat, q: nat, j: nat, b: nat)
    requires j < PERINDEX && forall m :: m in inodes ==> 0 < |inodes[m].addrs|
    requires forall m, i, r :: m in inodes && 0 <= i && 0 <= r < PERINDEX ==>
      EntryAt(disk', inodes[m], i, r) == if m == n && i == q && r == j then b else EntryAt(disk, inodes[m], i, r)
    ensures OnlyMaps(disk, inodes, disk', inodes, n, PERINDEX * q + j, b)
  {
    forall m, k | m in inodes && 0 <= k
      ensures BlockAt(disk', inodes[m], k) == if m == n && k == PERINDEX * q + j then b else BlockAt(disk, inodes[m], k)
    {
      var i, r := k / PERINDEX, k % PERINDEX;
      assert EntryAt(disk', inodes[m], i, r) ==
        if m == n && i == q && r == j then b else EntryAt(disk, inodes[m], i, r);
      DivMod(k, q, j);
    }
  }

  lemma OnlyMapsTrans(d1: seq<Block>, i1: map<nat, Inode>, d2: seq<Block>, i2: map<nat, Inode>, d3: seq<Block>,
                      i3: map<nat, Inode>,
                      n: nat, bn: nat, addr: nat)
    requires SameMaps(d1, i1, d2, i2) && OnlyMaps(d2, i2, d3, i3, n, bn, addr)
    ensures OnlyMaps(d1, i1, d3, i3, n, bn, addr)
  {
  }

  /** A chain that reaches index block q reaches all before it. */
  lemma {:induction false} WalkPrefix(disk: seq<Block>, addr: nat, i: nat, q: nat)
    requires i <= q
    ensures Walk(disk, addr, q) != 0 ==> Walk(disk, addr, i) != 0
    decreases q
  {
    if i < q {
      WalkPrefix(disk, addr, i, q - 1);
      WalkSnoc(disk, addr, q - 1);
    }
  }

  /** Behind index block q the chain is as it was. */
  ghost predicate Beyond(d0: seq<Block>, a0: nat, d: seq<Block>, a: nat, q: nat) {
    forall i :: q < i ==> Walk(d, a, i) == Walk(d0, a0, i)
  }

  lemma BeyondTrans(d0: seq<Block>, a0: nat, d1: seq<Block>, a1: nat, d2: seq<Block>, a2: nat, p: nat, q: nat)
    requires Beyond(d0, a0, d1, a1, p) && Beyond(d1, a1, d2, a2, q) && p <= q
    ensures Beyond(d0, a0, d2, a2, q)
  {
  }

  /** A new head is the end of its chain. */
  lemma BeyondHead(d0: seq<Block>, d: seq<Block>, b: nat)
    requires 0 < b < |d| && d[b] == Zeroes()
    ensures Beyond(d0, 0, d, b, 0)
  {
    WordOfZeroes(PERINDEX);
  }

  lemma BeyondEntry(disk: seq<Block>, inodes: map<nat, Inode>, role: seq<Role>, x: nat, j: nat, b: nat,
                    disk': seq<Block>, n: nat, q: nat)
    requires Linked(disk, inodes, role) && n in inodes && x < |disk| && j < PERINDEX && b < 0x1_0000_0000
    requires disk' == disk[x := SetWord(disk[x], j, b)]
    ensures Beyond(disk, inodes[n].addrs[0], disk', inodes[n].addrs[0], q)
  {
    forall i | q < i ensures Walk(disk', inodes[n].addrs[0], i) == Walk(disk, inodes[n].addrs[0], i) {
      WordOfSet(disk[x], j, b, PERINDEX);
      WalkSame(disk, inodes, role, disk', n, i);
    }
  }

  lemma SameMapsTrans(d1: seq<Block>, i1: map<nat, Inode>, d2: seq<Block>, i2: map<nat, Inode>, d3: seq<Block>,
                      i3: map<nat, Inode>)
    requires SameMaps(d1, i1, d2, i2) && SameMaps(d2, i2, d3, i3)
    ensures SameMaps(d1, i1, d3, i3)
  {
  }

  /** Block bn of file n is at x: it was before, or x is new and zero. */
  ghost predicate Placed(d0: seq<Block>, ins0: map<nat, Inode>, role0: seq<Role>, d: seq<Block>, ins: map<nat, Inode>,
                         role: seq<Role>,
                         n: nat, bn: nat, x: nat) {
    && Grown(d0, role0, d, role) && n in ins0 && n in ins && ins == ins0[n := ins[n]] && ins[n].size == ins0[n].size
    && OnlyMaps(d0, ins0, d, ins, n, bn, x) && 0 < x < |d| && role[x] == Data(n, bn)
    && (BlockAt(d0, ins0[n], bn) != 0 ==> x == BlockAt(d0, ins0[n], bn))
    && (BlockAt(d0, ins0[n], bn) == 0 ==> x < |role0| && role0[x] == Free && d[x] == Zeroes())
  }

  /** A new block for bn, first taken and then entered. */
  lemma PlacedNew(d0: seq<Block>, ins: map<nat, Inode>, role0: seq<Role>, d1: seq<Block>, d: seq<Block>,
                  role: seq<Role>, n: nat, bn: nat, x: nat)
    requires n in ins && SameMaps(d0, ins, d1, ins) && OnlyMaps(d1, ins, d, ins, n, bn, x)
    requires Grown(d0, role0, d1, role) && Grown(d1, role, d, role)
    requires 0 < x < |d| && role[x] == Data(n, bn) && role0[x] == Free && d[x] == Zeroes()
    requires 0 < |ins[n].addrs| && BlockAt(d0, ins[n], bn) == 0
    ensures Placed(d0, ins, role0, d, ins, role, n, bn, x)
  {
    OnlyMapsTrans(d0, ins, d1, ins, d, ins, n, bn, x);
    GrownTrans(d0, role0, d1, role, d, role);
  }

  lemma PlacedTrans(d0: seq<Block>, ins0: map<nat, Inode>, role0: seq<Role>, d1: seq<Block>, ins1: map<nat, Inode>,
                    role1: seq<Role>,
                    d: seq<Block>, ins: map<nat, Inode>, role: seq<Role>, n: nat, bn: nat, x: nat)
    requires Grown(d0, role0, d1, role1) && SameMaps(d0, ins0, d1, ins1)
    requires Placed(d1, ins1, role1, d, ins, role, n, bn, x)
    requires n in ins0 && ins1 == ins0[n := ins1[n]] && ins1[n].size == ins0[n].size
    ensures Placed(d0, ins0, role0, d, ins, role, n, bn, x)
  {
    OnlyMapsTrans(d0, ins0, d1, ins1, d, ins, n, bn, x);
    GrownTrans(d0, role0, d1, role1, d, role);
  }
}
