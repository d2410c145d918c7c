/**
  mkfs.c: the second implementation of the chain of index blocks.  iappend()
  takes blocks from the counter freeblock and marks none; balloc() writes the
  free map once, at the end.  Reading or writing past the image ends the program:
  the result false or None.
*/
module ImageBuilder {
  import opened Options
  import opened DiskBytes
  import opened FileChain
  import opened FileContents
  import opened FileUpdates
  import FileSystem

  /** The byte at position k of c, which is followed by zeroes. */
  function Padded(c: seq<byte>, k: nat): byte {
    if k < |c| then c[k] else 0
  }

  /** A file that holds c, has no block past its end, and zeroes up to the end of
      its last block. */
  ghost predicate FileIs(disk: seq<Block>, ino: Inode, c: seq<byte>) {
    && 0 < |ino.addrs| && ino.size == |c|
    && (forall bn :: 0 <= bn ==> (0 < BlockAt(disk, ino, bn) <==> bn * BSIZE < |c|))
    && (forall bn :: 0 <= bn && bn * BSIZE < |c| ==> BlockIs(disk, BlockAt(disk, ino, bn), bn, c))
  }

  ghost predicate BlockIs(disk: seq<Block>, b: nat, bn: nat, c: seq<byte>) {
    b < |disk| && forall j :: 0 <= j < BSIZE ==> disk[b][j] == Padded(c, bn * BSIZE + j)
  }

  /** The kernel sees such a file without holes and with these bytes. */
  lemma FileHolds(disk: seq<Block>, ino: Inode, c: seq<byte>)
    requires FileIs(disk, ino, c)
    ensures Holds(disk, ino, c)
  {
    forall k | 0 <= k < |c| ensures ByteAt(disk, ino, k) == c[k] {
      BlockBelow(k, |c|);
      assert BlockIs(disk, BlockAt(disk, ino, k / BSIZE), k / BSIZE, c);
      assert k / BSIZE * BSIZE + k % BSIZE == k;
    }
  }

  function EmptyFiles(k: nat): (m: map<nat, Inode>)
    ensures forall n :: n in m <==> 0 <= n < k
    ensures forall n :: n in m ==>
      m[n].size == 0 && |m[n].addrs| == NADDRS && forall i :: 0 <= i < NADDRS ==> m[n].addrs[i] == 0
  {
    if k == 0 then map[] else EmptyFiles(k - 1)[k - 1 := Inode(0, seq(NADDRS, _ => 0))]
  }

  // ---------------------------------------------------------------- one block of iappend()

  /** The block that gets the next bytes: mapped already, or new and zero. */
  ghost predicate Next(d0: seq<Block>, ino: Inode, addr: nat, d: seq<Block>, off: nat)
    requires 0 < |ino.addrs|
  {
    && 0 < addr < |d|
    && (BlockAt(d0, ino, off / BSIZE) == 0 ==> d[addr] == Zeroes())
    && (BlockAt(d0, ino, off / BSIZE) != 0 ==>
          addr == BlockAt(d0, ino, off / BSIZE) && addr < |d0| && d[addr] == d0[addr])
  }

  lemma PatchPads(b: Block, bn: nat, c: seq<byte>, src: seq<byte>)
    requires |c| / BSIZE == bn && |c| % BSIZE + |src| <= BSIZE
    requires forall j :: 0 <= j < BSIZE ==> b[j] == Padded(c, bn * BSIZE + j)
    ensures forall j :: 0 <= j < BSIZE ==> Patch(b, |c| % BSIZE, src)[j] == Padded(c + src, bn * BSIZE + j)
  {
  }

  /** The block at the end of the file before the bytes are copied into it. */
  lemma NextPads(d0: seq<Block>, ino: Inode, c: seq<byte>, addr: nat, d: seq<Block>)
    requires FileIs(d0, ino, c) && Next(d0, ino, addr, d, |c|)
    ensures BlockIs(d, addr, |c| / BSIZE, c)
  {
    var bn := |c| / BSIZE;
    if BlockAt(d0, ino, bn) == 0 {
      assert !(bn * BSIZE < |c|);
    } else {
      assert BlockIs(d0, addr, bn, c);
    }
  }

  /** Other blocks of the file hold what they held. */
  lemma EarlierPads(d: seq<Block>, b: nat, bn: nat, c: seq<byte>, src: seq<byte>)
    requires BlockIs(d, b, bn, c) && bn * BSIZE < |c| && bn != |c| / BSIZE
    ensures BlockIs(d, b, bn, c + src)
  {
  }

  lemma GrowsInto(size: nat, m: nat, bn: nat)
    requires 0 < m && size % BSIZE + m <= BSIZE
    ensures bn * BSIZE < size + m <==> bn * BSIZE < size || bn == size / BSIZE
  {
  }

  /** Copying src into the block at the end appends it to the file. */
  lemma ChunkAppends(d0: seq<Block>, ino0: Inode, c: seq<byte>, d1: seq<Block>, ino: Inode, addr: nat, src: seq<byte>,
                     d2: seq<Block>)
    requires FileIs(d0, ino0, c) && Next(d0, ino0, addr, d1, |c|) && |d0| == |d1|
    requires 0 < |src| && |c| % BSIZE + |src| <= BSIZE && 0 < |ino.addrs| && ino.size == |c + src|
    requires d2 == d1[addr := Patch(d1[addr], |c| % BSIZE, src)]
    requires forall bn :: 0 <= bn ==> BlockAt(d2, ino, bn) == if bn == |c| / BSIZE then addr else BlockAt(d0, ino0, bn)
    requires forall bn :: 0 <= bn && bn * BSIZE < |c| && bn != |c| / BSIZE ==>
      BlockAt(d0, ino0, bn) < |d0| && d2[BlockAt(d0, ino0, bn)] == d0[BlockAt(d0, ino0, bn)]
    ensures FileIs(d2, ino, c + src)
  {
    NextPads(d0, ino0, c, addr, d1);
    PatchPads(d1[addr], |c| / BSIZE, c, src);
    forall bn | 0 <= bn ensures 0 < BlockAt(d2, ino, bn) <==> bn * BSIZE < |c + src| {
      GrowsInto(|c|, |src|, bn);
    }
    forall bn | 0 <= bn && bn * BSIZE < |c + src| ensures BlockIs(d2, BlockAt(d2, ino, bn), bn, c + src) {
      GrowsInto(|c|, |src|, bn);
      if bn != |c| / BSIZE {
        assert BlockIs(d0, BlockAt(d0, ino0, bn), bn, c);
        EarlierPads(d0, BlockAt(d0, ino0, bn), bn, c, src);
      }
    }
  }

  /** A file none of whose blocks moved or changed. */
  lemma FileStays(d0: seq<Block>, ino0: Inode, d: seq<Block>, ino: Inode, c: seq<byte>)
    requires FileIs(d0, ino0, c) && |d| == |d0| && 0 < |ino.addrs| && ino.size == ino0.size
    requires forall bn :: 0 <= bn ==> BlockAt(d, ino, bn) == BlockAt(d0, ino0, bn)
    requires forall bn :: 0 <= bn && bn * BSIZE < |c| ==>
      BlockAt(d0, ino0, bn) < |d0| && d[BlockAt(d0, ino0, bn)] == d0[BlockAt(d0, ino0, bn)]
    ensures FileIs(d, ino, c)
  {
    forall bn | 0 <= bn && bn * BSIZE < |c| ensures BlockIs(d, BlockAt(d, ino, bn), bn, c) {
      assert BlockIs(d0, BlockAt(d0, ino0, bn), bn, c);
    }
  }

  // ---------------------------------------------------------------- the counter

  /** Blocks are taken in order: those below freeblock are in use, those from it
      on are zero, and so is the free map, which nothing has written yet. */
  ghost predicate Counted(l: Layout, disk: seq<Block>, role: seq<Role>, freeblock: nat) {
    && LayoutOk(l) && |disk| == |role| == l.size && l.nmeta <= freeblock <= l.size
    && (forall b :: 0 <= b < l.size ==> (role[b] == Meta <==> b < l.nmeta))
    && (forall b :: 0 <= b < l.size ==> (role[b] == Free <==> freeblock <= b))
    && (forall b :: freeblock <= b < l.size ==> disk[b] == Zeroes())
    && (forall b :: l.bmapstart <= b < l.nmeta ==> disk[b] == Zeroes())
  }

  lemma HeadThere(disk: seq<Block>, ino: Inode, c: seq<byte>)
    requires FileIs(disk, ino, c) && PERINDEX <= |c| / BSIZE
    ensures ino.addrs[0] != 0
  {
    assert 0 < BlockAt(disk, ino, 0);
  }

  class Image {
    const l: Layout
    var disk: seq<Block>
    var inodes: map<nat, Inode>
    var freeblock: nat
    ghost var role: seq<Role>
    ghost var content: map<nat, seq<byte>>

    ghost predicate Shape()
      reads this
    {
      Counted(l, disk, role, freeblock) && Linked(disk, inodes, role)
    }

    /** Every file holds exactly the bytes appended to it. */
    ghost predicate FilesHold()
      reads this
    {
      content.Keys == inodes.Keys && forall n :: n in inodes ==> FileIs(disk, inodes[n], content[n])
    }

    ghost predicate Valid()
      reads this
    {
      Shape() && FilesHold()
    }

    /** The image that main() starts from: every sector is zero, so every dinode
        is an empty file, and freeblock is behind the metadata. */
    constructor (l: Layout, ninodes: nat)
      requires LayoutOk(l)
      ensures Valid() && this.l == l && freeblock == l.nmeta
      ensures (forall n :: n in inodes <==> 0 <= n < ninodes) && forall n :: n in inodes ==> content[n] == []
    {
      this.l := l;
      disk := seq(l.size, _ => Zeroes());
      inodes := EmptyFiles(ninodes);
      freeblock := l.nmeta;
      role := seq(l.size, i => if i < l.nmeta then Meta else Free);
      content := map n | n in EmptyFiles(ninodes) :: [];
    }

    /** freeblock++, for a block that is read or written next: past the end of
        the image that fails. */
    method Take(ghost use: Role) returns (r: Option<nat>)
      requires Shape() && (use.Index? || use.Data?)
      modifies this`freeblock, this`role
      ensures r == if old(freeblock) < l.size then Some(old(freeblock)) else None
      ensures r.None? ==> freeblock == old(freeblock) && role == old(role)
      ensures r.Some? ==> Shape() && freeblock == old(freeblock) + 1 && role == old(role)[r.value := use]
      ensures r.Some? ==> l.nmeta <= r.value < l.size && old(role)[r.value] == Free && disk[r.value] == Zeroes()
      ensures r.Some? ==> Grown(disk, old(role), disk, role)
    {
      if freeblock >= l.size {
        return None;
      }
      r := Some(freeblock);
      TakeKeepsLinked(disk, inodes, role, freeblock, use);
      assert disk[freeblock := Zeroes()] == disk;
      role := role[freeblock := use];
      freeblock := freeblock + 1;
    }

    ghost predicate Extended(d0: seq<Block>, ins0: map<nat, Inode>, role0: seq<Role>, n: nat)
      reads this
    {
      && Shape() && Grown(d0, role0, disk, role)
      && n in inodes && n in ins0 && inodes == ins0[n := inodes[n]] && inodes[n].size == ins0[n].size
      && SameMaps(d0, ins0, disk, inodes)
    }

    /** din.addrs[0] = xint(freeblock++) for a file that has no blocks yet. */
    method Head(n: nat, q: nat) returns (r: Option<nat>)
      requires Shape() && n in inodes && (0 < q ==> inodes[n].addrs[0] != 0)
      modifies this`inodes, this`freeblock, this`role
      ensures if r.Some? then Chained(disk, old(inodes), old(role), n, 0, r.value) else l.size <= freeblock
    {
      if q == 0 && inodes[n].addrs[0] == 0 {
        r := Take(Index(n, 0));
        if r.None? {
          return;
        }
        ghost var before := inodes;
        inodes := inodes[n := inodes[n].(addrs := inodes[n].addrs[0 := r.value])];
        SetHead(disk, before, role, n, r.value, inodes);
      }
      r := Some(inodes[n].addrs[0]);
    }

    /** ... and x is its i-th index block. */
    ghost predicate Chained(d0: seq<Block>, ins0: map<nat, Inode>, role0: seq<Role>, n: nat, i: nat, x: nat)
      reads this
    {
      Extended(d0, ins0, role0, n) && 0 < x < l.size && Walk(disk, inodes[n].addrs[0], i) == x
    }

    /** The link of the (i-1)-th index block x, taken if it is missing. */
    method Link(n: nat, i: nat, x: nat) returns (r: Option<nat>)
      requires Shape() && n in inodes && 0 < i && 0 < x < l.size && Walk(disk, inodes[n].addrs[0], i - 1) == x
      modifies this`disk, this`freeblock, this`role
      ensures r.None? ==> l.size <= freeblock
      ensures r.Some? ==> Shape() && Grown(old(disk), old(role), disk, role)
      ensures r.Some? ==> SameMaps(old(disk), inodes, disk, inodes)
      ensures r.Some? ==> 0 < r.value < l.size && Walk(disk, inodes[n].addrs[0], i) == r.value
    {
      WalkOwned(disk, inodes, role, n, i - 1);
      WalkSnoc(disk, inodes[n].addrs[0], i - 1);
      assert role[x] == Index(n, i - 1) && l.nmeta <= x;
      assert IndexOk(disk[x], n, i - 1, role);
      if Word(disk[x], PERINDEX) == 0 {
        r := NewLink(n, i, x);
      } else {
        r := Some(Word(disk[x], PERINDEX));
      }
    }

    method NewLink(n: nat, i: nat, x: nat) returns (r: Option<nat>)
      requires Shape() && n in inodes && 0 < i && 0 < x < l.size && Walk(disk, inodes[n].addrs[0], i - 1) == x
      requires role[x] == Index(n, i - 1) && Word(disk[x], PERINDEX) == 0
      modifies this`disk, this`freeblock, this`role
      ensures r.None? ==> l.size <= freeblock
      ensures r.Some? ==> Shape() && Grown(old(disk), old(role), disk, role)
      ensures r.Some? ==> SameMaps(old(disk), inodes, disk, inodes)
      ensures r.Some? ==> 0 < r.value < l.size && Walk(disk, inodes[n].addrs[0], i) == r.value
    {
      ghost var d0, role0 := disk, role;
      r := Take(Index(n, i));
      if r.Some? {
        PutLink(n, i, x, r.value);
        GrownTrans(d0, role0, d0, role, disk, role);
      }
    }

    /** One turn of the loop over the chain. */
    method LinkTurn(n: nat, i: nat, x: nat, ghost d0: seq<Block>, ghost ins0: map<nat, Inode>, ghost role0: seq<Role>)
      returns (r: Option<nat>)
      requires 0 < i && Chained(d0, ins0, role0, n, i - 1, x)
      modifies this`disk, this`freeblock, this`role
      ensures if r.Some? then Chained(d0, ins0, role0, n, i, r.value) else l.size <= freeblock
    {
      ghost var d := disk;
      r := Link(n, i, x);
      if r.Some? {
        SameMapsTrans(d0, ins0, d, inodes, disk, inodes);
      }
    }

    /** indirect[NINDIRECT - 1] = xint(b), and the block written back. */
    method PutLink(n: nat, i: nat, x: nat, b: nat)
      requires Shape() && n in inodes && 0 < i && 0 < x < l.size && Word(disk[x], PERINDEX) == 0
      requires role[x] == Index(n, i - 1) && 0 < b < l.size && role[b] == Index(n, i) && disk[b] == Zeroes()
      modifies this`disk
      ensures Shape() && SameMaps(old(disk), inodes, disk, inodes) && Grown(old(disk), role, disk, role)
      ensures Walk(old(disk), inodes[n].addrs[0], i - 1) == x ==> Walk(disk, inodes[n].addrs[0], i) == b
    {
      var disk' := disk[x := SetWord(disk[x], PERINDEX, b)];
      SetLink(disk, inodes, role, x, b, disk');
      LinkWalk(disk, inodes, role, x, b, disk', n, i);
      disk := disk';
    }

    /** indirect[j] = xint(b), and the block written back. */
    method PutEntry(n: nat, q: nat, j: nat, ghost bn: nat, x: nat, b: nat)
      requires Shape() && n in inodes && j < PERINDEX && 0 < x < l.size && bn == PERINDEX * q + j
      requires role[x] == Index(n, q) && Walk(disk, inodes[n].addrs[0], q) == x
      requires 0 < b < l.size && role[b] == Data(n, bn)
      modifies this`disk
      ensures Shape() && OnlyMaps(old(disk), inodes, disk, inodes, n, bn, b)
      ensures forall y :: 0 <= y < l.size && y != x ==> disk[y] == old(disk)[y]
    {
      var disk' := disk[x := SetWord(disk[x], j, b)];
      PointerKeepsLinked(disk, inodes, role, x, j, b);
      forall m, i, r | m in inodes && 0 <= i && 0 <= r < PERINDEX
        ensures EntryAt(disk', inodes[m], i, r) ==
          if m == n && i == q && r == j then b else EntryAt(disk, inodes[m], i, r)
      {
        SetEntry(disk, inodes, role, x, j, b, disk', m, i, r);
      }
      EntriesOnly(disk, inodes, disk', n, q, j, b);
      disk := disk';
    }

    /** indirect[j] of the q-th index block x, taken if it is missing. */
    method Entry(n: nat, q: nat, j: nat, ghost bn: nat, x: nat) returns (r: Option<nat>)
      requires Shape() && n in inodes && j < PERINDEX && 0 < x < l.size && Walk(disk, inodes[n].addrs[0], q) == x
      requires bn == PERINDEX * q + j
      modifies this`disk, this`freeblock, this`role
      ensures r.None? ==> l.size <= freeblock
      ensures r.Some? ==> Shape() && Placed(old(disk), inodes, old(role), disk, inodes, role, n, bn, r.value)
    {
      WalkOwned(disk, inodes, role, n, q);
      assert role[x] == Index(n, q) && l.nmeta <= x;
      assert IndexOk(disk[x], n, q, role);
      DivMod(bn, q, j);
      if Word(disk[x], j) == 0 {
        r := Take(Data(n, bn));
        if r.Some? {
          PutEntry(n, q, j, bn, x, r.value);
        }
      } else {
        r := Some(Word(disk[x], j));
      }
    }

    /** The index block of the chain that has the entry wanted. */
    method Chain(n: nat, q: nat) returns (r: Option<nat>)
      requires Shape() && n in inodes && (0 < q ==> inodes[n].addrs[0] != 0)
      modifies this`disk, this`inodes, this`freeblock, this`role
      ensures if r.Some? then Chained(old(disk), old(inodes), old(role), n, q, r.value) else l.size <= freeblock
    {
      ghost var d0, ins0, role0 := disk, inodes, role;
      r := Head(n, q);
      var i := 1;
      while i <= q && r.Some?
        invariant 1 <= i <= q + 1
        invariant if r.Some? then Chained(d0, ins0, role0, n, i - 1, r.value) else l.size <= freeblock
      {
        r := LinkTurn(n, i, r.value, d0, ins0, role0);
        i := i + 1;
      }
    }

    /** Block bn of file n, with whatever it takes to reach it. */
    method BlockFor(n: nat, bn: nat) returns (r: Option<nat>)
      requires Shape() && n in inodes && (PERINDEX <= bn ==> inodes[n].addrs[0] != 0)
      modifies this`disk, this`inodes, this`freeblock, this`role
      ensures r.None? ==> l.size <= freeblock
      ensures r.Some? ==> Shape() && Placed(old(disk), old(inodes), old(role), disk, inodes, role, n, bn, r.value)
    {
      ghost var d0, ins0, role0 := disk, inodes, role;
      var q, fbn := FileSystem.Position(bn);
      r := Chain(n, q);
      if r.Some? {
        r := LastBlock(n, q, fbn, bn, r.value, d0, ins0, role0);
      }
    }

    method LastBlock(n: nat, q: nat, fbn: nat, ghost bn: nat, x: nat,
                     ghost d0: seq<Block>, ghost ins0: map<nat, Inode>, ghost role0: seq<Role>)
      returns (r: Option<nat>)
      requires Chained(d0, ins0, role0, n, q, x) && fbn < PERINDEX && bn == PERINDEX * q + fbn
      modifies this`disk, this`freeblock, this`role
      ensures r.None? ==> l.size <= freeblock
      ensures r.Some? ==> Shape() && Placed(d0, ins0, role0, disk, inodes, role, n, bn, r.value)
    {
      ghost var d1, role1 := disk, role;
      r := Entry(n, q, fbn, bn, x);
      if r.Some? {
        PlacedTrans(d0, ins0, role0, d1, inodes, role1, disk, inodes, role, n, bn, r.value);
      }
    }

    /** Files other than n hold their content, and file n holds c, which din.size
        does not show yet. */
    ghost predicate Appending(n: nat, c: seq<byte>)
      reads this
    {
      && Shape() && content.Keys == inodes.Keys && n in inodes
      && FileIs(disk, inodes[n].(size := |c|), c)
      && (forall m :: m in inodes && m != n ==> FileIs(disk, inodes[m], content[m]))
    }

    /** The body of the loop of iappend(): one block. */
    method AppendTurn(n: nat, off: nat, piece: seq<byte>, ghost c: seq<byte>) returns (ok: bool)
      requires Appending(n, c) && off == |c| && 0 < |piece| && off % BSIZE + |piece| <= BSIZE
      modifies this`disk, this`inodes, this`freeblock, this`role
      ensures inodes.Keys == old(inodes).Keys || !ok
      ensures if ok then Appending(n, c + piece) else l.size <= freeblock
    {
      ghost var d0, ins0, role0 := disk, inodes, role;
      if PERINDEX <= off / BSIZE {
        HeadThere(disk, inodes[n].(size := off), c);
      }
      var r := BlockFor(n, off / BSIZE);
      if r.None? {
        return false;
      }
      CopyInto(n, off, piece, r.value, c, d0, ins0, role0);
      return true;
    }

    /** rsect(x, buf); bcopy(); wsect(x, buf). */
    method CopyInto(n: nat, off: nat, piece: seq<byte>, x: nat, ghost c: seq<byte>,
                    ghost d0: seq<Block>, ghost ins0: map<nat, Inode>, ghost role0: seq<Role>)
      requires Shape() && Linked(d0, ins0, role0) && Placed(d0, ins0, role0, disk, inodes, role, n, off / BSIZE, x)
      requires off == |c| && 0 < |piece| && off % BSIZE + |piece| <= BSIZE
      requires FileIs(d0, ins0[n].(size := |c|), c) && content.Keys == ins0.Keys
      requires forall m :: m in ins0 && m != n ==> FileIs(d0, ins0[m], content[m])
      modifies this`disk
      ensures Appending(n, c + piece)
    {
      ghost var d1 := disk;
      disk := disk[x := Patch(disk[x], off % BSIZE, piece)];
      PatchKeepsShape(l, d1, inodes, role, freeblock, x, disk[x]);
      Appended(d0, ins0, role0, d1, inodes, role, n, c, x, piece, disk);
      OthersStay(d0, ins0, role0, d1, inodes, role, n, c, x, disk, content);
    }

    /** din.size = xint(off); winode(inum, &din). */
    method EndAppend(n: nat, off: nat, ghost c: seq<byte>)
      requires Appending(n, c) && off == |c|
      modifies this`inodes, this`content
      ensures Valid() && inodes.Keys == old(inodes).Keys && content == old(content)[n := c]
    {
      inodes := inodes[n := inodes[n].(size := off)];
      content := content[n := c];
    }

    /** The loop of iappend(). */
    method AppendAll(n: nat, p: seq<byte>, ghost c: seq<byte>) returns (ok: bool, off: nat)
      requires Appending(n, c) && |c| == inodes[n].size
      modifies this`disk, this`inodes, this`freeblock, this`role
      ensures !ok ==> l.size <= freeblock
      ensures ok ==> Appending(n, c + p) && off == |c + p| && inodes.Keys == old(inodes).Keys
    {
      off := inodes[n].size;
      var tot := 0;
      ghost var now := c;
      while tot < |p|
        invariant 0 <= tot <= |p| && off == |now| && now == c + p[..tot]
        invariant inodes.Keys == old(inodes).Keys && Appending(n, now)
      {
        var n1 := FileSystem.Min(|p| - tot, (off / BSIZE + 1) * BSIZE - off);
        ok := AppendTurn(n, off, p[tot..tot + n1], now);
        if !ok {
          return;
        }
        Joined(c, p, tot, n1);
        now := now + p[tot..tot + n1];
        tot := tot + n1;
        off := off + n1;
      }
      assert now == c + p;
      ok := true;
    }

    /** iappend(): the bytes come behind those the file has.  It fails only when
        every block of the image is taken. */
    method Iappend(n: nat, p: seq<byte>) returns (ok: bool)
      requires Valid() && n in inodes
      modifies this
      ensures !ok ==> l.size <= freeblock
      ensures ok ==> Valid() && inodes.Keys == old(inodes).Keys && content == old(content)[n := old(content)[n] + p]
    {
      var off;
      assert inodes[n].(size := inodes[n].size) == inodes[n];
      ok, off := AppendAll(n, p, content[n]);
      if ok {
        EndAppend(n, off, content[n] + p);
      }
    }

    /** balloc(): one block of free map, with a bit for each block below
        freeblock; with more than one block's worth the program gives up.  What
        comes out is the file system that the kernel expects. */
    method Balloc() returns (ok: bool)
      requires Valid() && freeblock <= l.size
      modifies this`disk
      ensures ok <==> freeblock < BPB
      ensures ok ==> FilesHold() && Owned(l, disk, inodes, role)
      ensures ok ==> forall b :: 0 <= b < l.size ==> (Marked(l, disk, b) <==> b < freeblock)
    {
      if freeblock >= BPB {
        return false;
      }
      var buf := MapBelow(freeblock);
      ghost var d0 := disk;
      disk := disk[l.bmapstart := buf];
      MapWritten(l, d0, inodes, role, freeblock, buf, disk);
      forall n | n in inodes ensures FileIs(disk, inodes[n], content[n]) {
        MapOutside(d0, inodes, role, l.bmapstart, buf, n, content[n]);
      }
      return true;
    }
  }

  lemma Joined(c: seq<byte>, p: seq<byte>, tot: nat, m: nat)
    requires tot + m <= |p|
    ensures c + p[..tot] + p[tot..tot + m] == c + p[..tot + m]
  {
  }

  lemma PatchKeepsShape(l: Layout, d1: seq<Block>, ins: map<nat, Inode>, role: seq<Role>, freeblock: nat, x: nat,
                        data: Block)
    requires Counted(l, d1, role, freeblock) && Linked(d1, ins, role) && x < |d1| && role[x].Data?
    ensures Counted(l, d1[x := data], role, freeblock) && Linked(d1[x := data], ins, role)
    ensures SameMaps(d1, ins, d1[x := data], ins)
  {
    WriteKeepsMaps(d1, ins, role, x, data);
  }

  lemma Appended(d0: seq<Block>, ins0: map<nat, Inode>, role0: seq<Role>, d1: seq<Block>, ins: map<nat, Inode>,
                 role: seq<Role>,
                 n: nat, c: seq<byte>, x: nat, piece: seq<byte>, d2: seq<Block>)
    requires Linked(d0, ins0, role0) && Placed(d0, ins0, role0, d1, ins, role, n, |c| / BSIZE, x)
    requires FileIs(d0, ins0[n].(size := |c|), c) && 0 < |piece| && |c| % BSIZE + |piece| <= BSIZE
    requires d2 == d1[x := Patch(d1[x], |c| % BSIZE, piece)] && SameMaps(d1, ins, d2, ins)
    ensures FileIs(d2, ins[n].(size := |c + piece|), c + piece)
  {
    var ino0, ino := ins0[n].(size := |c|), ins[n].(size := |c + piece|);
    forall bn | 0 <= bn
      ensures BlockAt(d0, ino0, bn) == BlockAt(d0, ins0[n], bn)
      ensures BlockAt(d2, ino, bn) == if bn == |c| / BSIZE then x else BlockAt(d0, ino0, bn)
    {
      SizeFree(d0, ins0[n], |c|, bn);
      SizeFree(d2, ins[n], |c + piece|, bn);
    }
    BlockOwned(d0, ins0, role0, n, |c| / BSIZE);
    forall bn | 0 <= bn && bn * BSIZE < |c| && bn != |c| / BSIZE
      ensures BlockAt(d0, ino0, bn) < |d0| && d2[BlockAt(d0, ino0, bn)] == d0[BlockAt(d0, ino0, bn)]
    {
      BlockOwned(d0, ins0, role0, n, bn);
    }
    ChunkAppends(d0, ino0, c, d1, ino, x, piece, d2);
  }

  lemma OthersStay(d0: seq<Block>, ins0: map<nat, Inode>, role0: seq<Role>, d1: seq<Block>, ins: map<nat, Inode>,
                   role: seq<Role>,
                   n: nat, c: seq<byte>, x: nat, d2: seq<Block>, content: map<nat, seq<byte>>)
    requires Linked(d0, ins0, role0) && Placed(d0, ins0, role0, d1, ins, role, n, |c| / BSIZE, x)
    requires |d2| == |d1| && d2 == d1[x := d2[x]] && SameMaps(d1, ins, d2, ins) && content.Keys == ins0.Keys
    requires forall m :: m in ins0 && m != n ==> FileIs(d0, ins0[m], content[m])
    ensures forall m :: m in ins && m != n ==> FileIs(d2, ins[m], content[m])
  {
    forall m | m in ins && m != n ensures FileIs(d2, ins[m], content[m]) {
      forall bn | 0 <= bn && bn * BSIZE < |content[m]|
        ensures BlockAt(d0, ins0[m], bn) < |d0| && d2[BlockAt(d0, ins0[m], bn)] == d0[BlockAt(d0, ins0[m], bn)]
      {
        BlockOwned(d0, ins0, role0, m, bn);
      }
      FileStays(d0, ins0[m], d2, ins[m], content[m]);
    }
  }

  // ---------------------------------------------------------------- the free map

  /** The loop of balloc(). */
  method MapBelow(used: nat) returns (buf: Block)
    requires used < BPB
    ensures forall i :: 0 <= i < BPB ==> (MapBit(buf, i) <==> i < used)
  {
    buf := Zeroes();
    forall i | 0 <= i < BPB ensures !MapBit(buf, i) {
      NoBits(i % 8);
    }
    var i := 0;
    while i < used
      invariant 0 <= i <= used
      invariant forall j :: 0 <= j < BPB ==> (MapBit(buf, j) <==> j < i)
    {
      buf := MapOn(buf, i);
      i := i + 1;
    }
  }

  lemma {:induction false} NoBits(k: nat)
    ensures !Bit(0, k)
    decreases k
  {
    if 0 < k {
      NoBits(k - 1);
    }
  }

  lemma MapWritten(l: Layout, d0: seq<Block>, ins: map<nat, Inode>, role: seq<Role>, freeblock: nat, buf: Block,
                   d: seq<Block>)
    requires Counted(l, d0, role, freeblock) && Linked(d0, ins, role) && freeblock < BPB
    requires forall i :: 0 <= i < BPB ==> (MapBit(buf, i) <==> i < freeblock)
    requires d == d0[l.bmapstart := buf]
    ensures Owned(l, d, ins, role)
    ensures forall b :: 0 <= b < l.size ==> (Marked(l, d, b) <==> b < freeblock)
  {
    WriteKeepsMaps(d0, ins, role, l.bmapstart, buf);
    forall b | 0 <= b < l.size ensures Marked(l, d, b) <==> b < freeblock {
      if BPB <= b {
        assert d[l.bmapstart + b / BPB] == Zeroes();
        NoBits(b % BPB % 8);
      }
    }
  }

  lemma MapOutside(d0: seq<Block>, ins: map<nat, Inode>, role: seq<Role>, at: nat, buf: Block, n: nat, c: seq<byte>)
    requires Linked(d0, ins, role) && at < |d0| && role[at] == Meta && n in ins && FileIs(d0, ins[n], c)
    ensures FileIs(d0[at := buf], ins[n], c)
  {
    WriteKeepsMaps(d0, ins, role, at, buf);
    forall bn | 0 <= bn && bn * BSIZE < |c|
      ensures BlockAt(d0, ins[n], bn) < |d0| && d0[at := buf][BlockAt(d0, ins[n], bn)] == d0[BlockAt(d0, ins[n], bn)]
    {
      BlockOwned(d0, ins, role, n, bn);
    }
    FileStays(d0, ins[n], d0[at := buf], ins[n], c);
  }

  // ---------------------------------------------------------------- the size of the root directory

  /** What main() makes of the size of the root directory. */
  function RootSize(off: nat): nat {
    (off / BSIZE + 1) * BSIZE
  }

  /** The root directory has a block for each byte of its new size if and only if
      its entries did not fill the last block; then zeroes follow them. */
  lemma RootFixed(disk: seq<Block>, ino: Inode, c: seq<byte>)
    requires FileIs(disk, ino, c)
    ensures Dense(disk, ino.(size := RootSize(|c|))) <==> |c| % BSIZE != 0
    ensures |c| % BSIZE != 0 ==>
      forall k :: 0 <= k < RootSize(|c|) ==> Contents(disk, ino.(size := RootSize(|c|)))[k] == Padded(c, k)
  {
    var ino' := ino.(size := RootSize(|c|));
    forall bn | 0 <= bn
      ensures BlockAt(disk, ino', bn) == BlockAt(disk, ino, bn)
      ensures bn * BSIZE < RootSize(|c|) <==> bn <= |c| / BSIZE
    {
      SizeFree(disk, ino, RootSize(|c|), bn);
      RootBlocks(|c|, bn);
    }
    RootBlocks(|c|, |c| / BSIZE);
    if |c| % BSIZE != 0 {
      forall bn | 0 <= bn && bn * BSIZE < RootSize(|c|) ensures 0 < BlockAt(disk, ino', bn) < |disk| {
        RootBlocks(|c|, bn);
        assert BlockIs(disk, BlockAt(disk, ino, bn), bn, c);
      }
      forall k | 0 <= k < RootSize(|c|) ensures ByteAt(disk, ino', k) == Padded(c, k) {
        BlockBelow(k, RootSize(|c|));
        RootBlocks(|c|, k / BSIZE);
        assert BlockIs(disk, BlockAt(disk, ino, k / BSIZE), k / BSIZE, c);
        assert k / BSIZE * BSIZE + k % BSIZE == k;
      }
    }
  }

  lemma RootBlocks(size: nat, bn: nat)
    ensures bn * BSIZE < RootSize(size) <==> bn <= size / BSIZE
    ensures size % BSIZE != 0 ==> (bn * BSIZE < size <==> bn <= size / BSIZE)
    ensures size % BSIZE == 0 ==> !(size / BSIZE * BSIZE < size)
  {
  }
}
