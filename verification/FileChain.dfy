/**
  The layout of files in fs.c and mkfs.c: an inode points to the first of a chain
  of index blocks; each holds 127 data block numbers and, in its last word, the
  number of the next index block.
*/
module FileChain {
  import opened DiskBytes

  const PERINDEX: nat := NINDIRECT - 1
  const NADDRS: nat := 13

  /** An inode: addrs[0] is the head of the chain. */
  datatype Inode = Inode(size: nat, addrs: seq<nat>)

  /** The superblock fields that block allocation uses; nmeta counts the blocks
      before the data area. */
  datatype Layout = Layout(size: nat, nmeta: nat, bmapstart: nat)

  ghost predicate LayoutOk(l: Layout) {
    0 < l.nmeta <= l.size < 0x1_0000_0000 && l.bmapstart + (l.size - 1) / BPB < l.nmeta
  }

  /** What a block is used for. */
  datatype Role = Free | Meta | Index(inum: nat, i: nat) | Data(inum: nat, bn: nat)

  // ---------------------------------------------------------------- walking the chain

  /** The i-th index block of the chain that starts at addr; 0 if there is none. */
  function Walk(disk: seq<Block>, addr: nat, i: nat): (r: nat)
    ensures r == 0 || r < |disk|
    decreases i
  {
    if addr == 0 || |disk| <= addr then 0
    else if i == 0 then addr
    else Walk(disk, Word(disk[addr], PERINDEX), i - 1)
  }

  /** The data block that holds block bn of a file; 0 if it is not mapped. */
  function BlockAt(disk: seq<Block>, ino: Inode, bn: nat): (r: nat)
    requires 0 < |ino.addrs|
  {
    EntryAt(disk, ino, bn / PERINDEX, bn % PERINDEX)
  }

  /** Entry r of the q-th index block. */
  function EntryAt(disk: seq<Block>, ino: Inode, q: nat, r: nat): nat
    requires 0 < |ino.addrs| && r < PERINDEX
  {
    var x := Walk(disk, ino.addrs[0], q);
    if x == 0 then 0 else Word(disk[x], r)
  }

  lemma {:induction false} WalkSnoc(disk: seq<Block>, addr: nat, i: nat)
    ensures var x := Walk(disk, addr, i);
      Walk(disk, addr, i + 1) ==
        if x == 0 then 0
        else if Word(disk[x], PERINDEX) < |disk| then Word(disk[x], PERINDEX) else 0
    decreases i
  {
    if addr != 0 && addr < |disk| {
      if i == 0 {
        assert Walk(disk, addr, 1) == Walk(disk, Word(disk[addr], PERINDEX), 0);
      } else {
        WalkSnoc(disk, Word(disk[addr], PERINDEX), i - 1);
      }
    }
  }

  // ---------------------------------------------------------------- ownership

  ghost predicate PtrOk(p: nat, role: seq<Role>, r: Role) {
    p == 0 || (p < |role| && role[p] == r)
  }

  /** Every pointer in index block i of inode n leads to a block owned for it. */
  ghost predicate IndexOk(b: Block, n: nat, i: nat, role: seq<Role>) {
    && PtrOk(Word(b, PERINDEX), role, Index(n, i + 1))
    && (forall j :: 0 <= j < PERINDEX ==> PtrOk(Word(b, j), role, Data(n, PERINDEX * i + j)))
  }

  predicate Marked(l: Layout, disk: seq<Block>, b: nat)
    requires l.bmapstart + b / BPB < |disk|
  {
    MapBit(disk[l.bmapstart + b / BPB], b % BPB)
  }

  ghost predicate InodeOk(ino: Inode, n: nat, role: seq<Role>) {
    && |ino.addrs| == NADDRS
    && PtrOk(ino.addrs[0], role, Index(n, 0))
    && (forall k :: 1 <= k < NADDRS ==> ino.addrs[k] == 0)
  }

  /** Every pointer of every file leads to a block with the role of exactly that
      place in that file. */
  ghost predicate Linked(disk: seq<Block>, inodes: map<nat, Inode>, role: seq<Role>) {
    && |disk| == |role|
    && (forall n :: n in inodes ==> InodeOk(inodes[n], n, role))
    && (forall b :: 0 <= b < |role| && role[b].Index? ==> IndexOk(disk[b], role[b].inum, role[b].i, role))
  }

  /** The free map marks exactly the blocks in use; metadata is in use. */
  ghost predicate MapOk(l: Layout, disk: seq<Block>, role: seq<Role>) {
    && LayoutOk(l) && |disk| == |role| == l.size
    && (forall b :: 0 <= b < l.size ==> (role[b] == Meta <==> b < l.nmeta))
    && (forall b {:trigger Marked(l, disk, b)} :: 0 <= b < l.size ==> (Marked(l, disk, b) <==> role[b] != Free))
  }

  /** Ownership: each block has one role, and free map and pointers agree with it. */
  ghost predicate Owned(l: Layout, disk: seq<Block>, inodes: map<nat, Inode>, role: seq<Role>) {
    MapOk(l, disk, role) && Linked(disk, inodes, role)
  }

  lemma {:induction false} WalkOwned(disk: seq<Block>, inodes: map<nat, Inode>, role: seq<Role>, n: nat, i: nat)
    requires Linked(disk, inodes, role) && n in inodes
    ensures PtrOk(Walk(disk, inodes[n].addrs[0], i), role, Index(n, i))
  {
    if 0 < i {
      WalkOwned(disk, inodes, role, n, i - 1);
      WalkSnoc(disk, inodes[n].addrs[0], i - 1);
    }
  }

  /** The link of the (i-1)-th index block x leads to the i-th. */
  lemma LinkOf(disk: seq<Block>, inodes: map<nat, Inode>, role: seq<Role>, n: nat, i: nat, x: nat)
    requires Linked(disk, inodes, role) && n in inodes && 0 < i && 0 < x
    requires Walk(disk, inodes[n].addrs[0], i - 1) == x
    ensures x < |role| && role[x] == Index(n, i - 1)
    ensures Word(disk[x], PERINDEX) == Walk(disk, inodes[n].addrs[0], i)
  {
    WalkOwned(disk, inodes, role, n, i - 1);
    WalkSnoc(disk, inodes[n].addrs[0], i - 1);
    assert IndexOk(disk[x], n, i - 1, role);
  }

  lemma BlockOwned(disk: seq<Block>, inodes: map<nat, Inode>, role: seq<Role>, n: nat, bn: nat)
    requires Linked(disk, inodes, role) && n in inodes
    ensures PtrOk(BlockAt(disk, inodes[n], bn), role, Data(n, bn))
  {
    WalkOwned(disk, inodes, role, n, bn / PERINDEX);
    assert PERINDEX * (bn / PERINDEX) + bn % PERINDEX == bn;
  }

  /** No block serves two places: the blocks of all chains and all files are
      pairwise distinct, marked in the free map, and outside the metadata. */
  lemma BlocksDistinct(l: Layout, disk: seq<Block>, inodes: map<nat, Inode>, role: seq<Role>,
                       n: nat, bn: nat, m: nat, bm: nat)
    requires Owned(l, disk, inodes, role) && n in inodes && m in inodes
    ensures var x, y := BlockAt(disk, inodes[n], bn), BlockAt(disk, inodes[m], bm);
      x != 0 ==> l.nmeta <= x < l.size && Marked(l, disk, x) && (x == y ==> n == m && bn == bm)
    ensures var x, y := Walk(disk, inodes[n].addrs[0], bn), Walk(disk, inodes[m].addrs[0], bm);
      x != 0 ==> l.nmeta <= x < l.size && Marked(l, disk, x) && (x == y ==> n == m && bn == bm)
    ensures var x, y := BlockAt(disk, inodes[n], bn), Walk(disk, inodes[m].addrs[0], bm);
      x != 0 ==> x != y
  {
    BlockOwned(disk, inodes, role, n, bn);
    BlockOwned(disk, inodes, role, m, bm);
    WalkOwned(disk, inodes, role, n, bn);
    WalkOwned(disk, inodes, role, m, bm);
  }

  // ---------------------------------------------------------------- what an update leaves alone

  /** Two disks whose index blocks agree on their links give the same walks. */
  lemma {:induction false} WalkSame(disk: seq<Block>, inodes: map<nat, Inode>, role: seq<Role>,
                                   disk': seq<Block>, n: nat, i: nat)
    requires Linked(disk, inodes, role) && n in inodes && |disk'| == |disk|
    requires forall b :: 0 <= b < |role| && role[b].Index? ==> Word(disk'[b], PERINDEX) == Word(disk[b], PERINDEX)
    ensures Walk(disk', inodes[n].addrs[0], i) == Walk(disk, inodes[n].addrs[0], i)
  {
    if 0 < i {
      WalkSame(disk, inodes, role, disk', n, i - 1);
      WalkSnoc(disk, inodes[n].addrs[0], i - 1);
      WalkSnoc(disk', inodes[n].addrs[0], i - 1);
      WalkOwned(disk, inodes, role, n, i - 1);
    }
  }

  /** The two states map every block of every file alike. */
  ghost predicate SameMaps(disk: seq<Block>, inodes: map<nat, Inode>, disk': seq<Block>, inodes': map<nat, Inode>) {
    && inodes'.Keys == inodes.Keys
    && (forall m :: m in inodes ==> 0 < |inodes[m].addrs| && 0 < |inodes'[m].addrs|)
    && (forall m, k :: m in inodes && 0 <= k ==> BlockAt(disk', inodes'[m], k) == BlockAt(disk, inodes[m], k))
  }

  /** Changing a block that is not an index block moves nothing. */
  lemma WriteKeepsMaps(disk: seq<Block>, inodes: map<nat, Inode>, role: seq<Role>, b: nat, data: Block)
    requires Linked(disk, inodes, role) && b < |disk| && !role[b].Index?
    ensures Linked(disk[b := data], inodes, role)
    ensures SameMaps(disk, inodes, disk[b := data], inodes)
  {
    forall m, k | m in inodes && 0 <= k ensures BlockAt(disk[b := data], inodes[m], k) == BlockAt(disk, inodes[m], k) {
      WalkSame(disk, inodes, role, disk[b := data], m, k / PERINDEX);
      WalkOwned(disk, inodes, role, m, k / PERINDEX);
    }
  }

  /** Giving a free block a role disturbs no pointer, since none leads to it. */
  lemma TakeKeepsLinked(disk: seq<Block>, inodes: map<nat, Inode>, role: seq<Role>, b: nat, r: Role)
    requires Linked(disk, inodes, role) && b < |disk| && role[b] == Free
    ensures Linked(disk[b := Zeroes()], inodes, role[b := r])
  {
    var disk', role' := disk[b := Zeroes()], role[b := r];
    assert forall p, q :: q != Free && PtrOk(p, role, q) ==> PtrOk(p, role', q);
    forall x | 0 <= x < |role'| && role'[x].Index? ensures IndexOk(disk'[x], role'[x].inum, role'[x].i, role') {
      if x == b {
        forall j | 0 <= j < NINDIRECT ensures Word(Zeroes(), j) == 0 {
          WordOfZeroes(j);
        }
      } else {
        assert IndexOk(disk[x], role[x].inum, role[x].i, role);
      }
    }
  }

  lemma TakeKeepsMaps(disk: seq<Block>, inodes: map<nat, Inode>, role: seq<Role>, b: nat)
    requires Linked(disk, inodes, role) && b < |disk| && role[b] == Free
    ensures SameMaps(disk, inodes, disk[b := Zeroes()], inodes)
  {
    WriteKeepsMaps(disk, inodes, role, b, Zeroes());
  }

  // ---------------------------------------------------------------- the three ways bmap() adds a pointer

  /** ip->addrs[0] = balloc(): the first index block of a file. */
  lemma SetHead(disk: seq<Block>, inodes: map<nat, Inode>, role: seq<Role>, n: nat, b: nat, inodes': map<nat, Inode>)
    requires Linked(disk, inodes, role) && n in inodes && inodes[n].addrs[0] == 0
    requires 0 < b < |disk| && role[b] == Index(n, 0) && disk[b] == Zeroes()
    requires inodes' == inodes[n := inodes[n].(addrs := inodes[n].addrs[0 := b])]
    ensures Linked(disk, inodes', role)
    ensures Walk(disk, inodes'[n].addrs[0], 0) == b
    ensures SameMaps(disk, inodes, disk, inodes')
  {
    forall k: nat ensures BlockAt(disk, inodes'[n], k) == 0 {
      EmptyChain(disk, b, k);
    }
  }

  /** A chain of one empty index block maps nothing. */
  lemma EmptyChain(disk: seq<Block>, b: nat, k: nat)
    requires 0 < b < |disk| && disk[b] == Zeroes()
    ensures var x := Walk(disk, b, k / PERINDEX); x == 0 || (x == b && Word(disk[x], k % PERINDEX) == 0)
  {
    WordOfZeroes(PERINDEX);
    WordOfZeroes(k % PERINDEX);
  }

  /** Index block x gets a link to the empty index block b. */
  ghost predicate Links(disk: seq<Block>, role: seq<Role>, x: nat, b: nat, disk': seq<Block>) {
    && |role| == |disk| && 0 < x < |disk| && role[x].Index? && Word(disk[x], PERINDEX) == 0
    && 0 < b < |disk| && b < 0x1_0000_0000 && role[b] == Index(role[x].inum, role[x].i + 1) && disk[b] == Zeroes()
    && disk' == disk[x := SetWord(disk[x], PERINDEX, b)]
  }

  /** What it does to the link word of a block. */
  lemma LinkWord(disk: seq<Block>, role: seq<Role>, x: nat, b: nat, disk': seq<Block>, y: nat)
    requires Links(disk, role, x, b, disk') && y < |disk|
    ensures Word(disk'[y], PERINDEX) == if y == x then b else Word(disk[y], PERINDEX)
    ensures Word(disk[b], PERINDEX) == 0
  {
    WordOfSet(disk[x], PERINDEX, b, PERINDEX);
    WordOfZeroes(PERINDEX);
  }

  /** The walks after it. */
  lemma {:induction false} LinkWalk(disk: seq<Block>, inodes: map<nat, Inode>, role: seq<Role>,
                                   x: nat, b: nat, disk': seq<Block>, m: nat, k: nat)
    requires Linked(disk, inodes, role) && m in inodes && Links(disk, role, x, b, disk')
    ensures Walk(disk', inodes[m].addrs[0], k) ==
      if m == role[x].inum && k == role[x].i + 1 && Walk(disk, inodes[m].addrs[0], role[x].i) == x then b
      else Walk(disk, inodes[m].addrs[0], k)
  {
    if 0 < k {
      LinkWalk(disk, inodes, role, x, b, disk', m, k - 1);
      LinkWalkStep(disk, inodes, role, x, b, disk', m, k - 1);
    }
  }

  lemma LinkWalkStep(disk: seq<Block>, inodes: map<nat, Inode>, role: seq<Role>,
                     x: nat, b: nat, disk': seq<Block>, m: nat, k: nat)
    requires Linked(disk, inodes, role) && m in inodes && Links(disk, role, x, b, disk')
    requires Walk(disk', inodes[m].addrs[0], k) ==
      if m == role[x].inum && k == role[x].i + 1 && Walk(disk, inodes[m].addrs[0], role[x].i) == x then b
      else Walk(disk, inodes[m].addrs[0], k)
    ensures Walk(disk', inodes[m].addrs[0], k + 1) ==
      if m == role[x].inum && k == role[x].i && Walk(disk, inodes[m].addrs[0], role[x].i) == x then b
      else Walk(disk, inodes[m].addrs[0], k + 1)
  {
    var addr := inodes[m].addrs[0];
    var y, y' := Walk(disk, addr, k), Walk(disk', addr, k);
    WalkSnoc(disk, addr, k);
    WalkSnoc(disk', addr, k);
    WalkOwned(disk, inodes, role, m, k);
    LinkWord(disk, role, x, b, disk', y');
    if 0 < k {
      WalkSnoc(disk, addr, k - 1);
    }
  }

  lemma LinkEntry(disk: seq<Block>, inodes: map<nat, Inode>, role: seq<Role>, x: nat, b: nat, disk': seq<Block>,
                  m: nat, q: nat, r: nat)
    requires Linked(disk, inodes, role) && m in inodes && r < PERINDEX
    requires Links(disk, role, x, b, disk')
    ensures EntryAt(disk', inodes[m], q, r) == EntryAt(disk, inodes[m], q, r)
  {
    LinkWalk(disk, inodes, role, x, b, disk', m, q);
    WordOfZeroes(r);
    WordOfSet(disk[x], PERINDEX, b, r);
    if 0 < q {
      WalkSnoc(disk, inodes[m].addrs[0], q - 1);
    }
  }

  /** Setting a pointer that was null, to a block with the right role. */
  lemma PointerKeepsLinked(disk: seq<Block>, inodes: map<nat, Inode>, role: seq<Role>, x: nat, j: nat, b: nat)
    requires Linked(disk, inodes, role) && x < |disk| && role[x].Index? && j < NINDIRECT
    requires b < |role| && b < 0x1_0000_0000
    requires role[b] ==
      if j == PERINDEX then Index(role[x].inum, role[x].i + 1) else Data(role[x].inum, PERINDEX * role[x].i + j)
    ensures Linked(disk[x := SetWord(disk[x], j, b)], inodes, role)
  {
    var disk' := disk[x := SetWord(disk[x], j, b)];
    assert IndexOk(disk[x], role[x].inum, role[x].i, role);
    forall i | 0 <= i < NINDIRECT ensures Word(disk'[x], i) == if i == j then b else Word(disk[x], i) {
      WordOfSet(disk[x], j, b, i);
    }
    assert IndexOk(disk'[x], role[x].inum, role[x].i, role);
  }

  /** a[NINDIRECT-1] = balloc(): the next index block of a chain. */
  lemma SetLink(disk: seq<Block>, inodes: map<nat, Inode>, role: seq<Role>, x: nat, b: nat, disk': seq<Block>)
    requires Linked(disk, inodes, role)
    requires Links(disk, role, x, b, disk')
    ensures Linked(disk', inodes, role)
    ensures SameMaps(disk, inodes, disk', inodes)
  {
    PointerKeepsLinked(disk, inodes, role, x, PERINDEX, b);
    forall m, q, r | m in inodes && 0 <= q && 0 <= r < PERINDEX
      ensures EntryAt(disk', inodes[m], q, r) == EntryAt(disk, inodes[m], q, r)
    {
      LinkEntry(disk, inodes, role, x, b, disk', m, q, r);
    }
    SameEntries(disk, inodes, disk');
  }

  lemma SameEntries(disk: seq<Block>, inodes: map<nat, Inode>, disk': seq<Block>)
    requires forall m :: m in inodes ==> 0 < |inodes[m].addrs|
    requires forall m, q, r :: m in inodes && 0 <= q && 0 <= r < PERINDEX ==>
      EntryAt(disk', inodes[m], q, r) == EntryAt(disk, inodes[m], q, r)
    ensures SameMaps(disk, inodes, disk', inodes)
  {
  }

  /** a[bn] = balloc(): a data block. */
  lemma SetEntry(disk: seq<Block>, inodes: map<nat, Inode>, role: seq<Role>, x: nat, j: nat, b: nat, disk': seq<Block>,
                 m: nat, q: nat, r: nat)
    requires Linked(disk, inodes, role) && m in inodes && r < PERINDEX
    requires 0 < x < |disk| && role[x].Index? && j < PERINDEX && b < 0x1_0000_0000
    requires disk' == disk[x := SetWord(disk[x], j, b)]
    ensures EntryAt(disk', inodes[m], q, r) ==
      if m == role[x].inum && q == role[x].i && r == j && Walk(disk, inodes[m].addrs[0], role[x].i) == x then b
      else EntryAt(disk, inodes[m], q, r)
  {
    WordOfSet(disk[x], j, b, PERINDEX);
    WordOfSet(disk[x], j, b, r);
    EntryMaps(disk, inodes, role, x, j, b, disk', m, q, r);
  }

  lemma DivMod(k: nat, i: nat, j: nat)
    requires j < PERINDEX
    ensures k == PERINDEX * i + j <==> k / PERINDEX == i && k % PERINDEX == j
  {
  }

  lemma EntryMaps(disk: seq<Block>, inodes: map<nat, Inode>, role: seq<Role>, x: nat, j: nat, b: nat, disk': seq<Block>,
                  m: nat, q: nat, r: nat)
    requires Linked(disk, inodes, role) && m in inodes && 0 < x < |disk| && role[x].Index? && j < PERINDEX
    requires r < PERINDEX
    requires |disk'| == |disk| && (forall y :: 0 <= y < |disk| && y != x ==> disk'[y] == disk[y])
    requires Word(disk'[x], PERINDEX) == Word(disk[x], PERINDEX)
    requires Word(disk'[x], r) == if r == j then b else Word(disk[x], r)
    ensures EntryAt(disk', inodes[m], q, r) ==
      if m == role[x].inum && q == role[x].i && r == j && Walk(disk, inodes[m].addrs[0], role[x].i) == x then b
      else EntryAt(disk, inodes[m], q, r)
  {
    WalkSame(disk, inodes, role, disk', m, q);
    WalkOwned(disk, inodes, role, m, q);
  }
}
