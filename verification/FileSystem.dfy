/**
  fs.c: block allocation, bmap(), itrunc(), readi() and writei() on the content
  that the buffer cache and the log present.  A panic is the result None.
*/
module FileSystem {
  import opened Options
  import opened DiskBytes
  import opened FileChain
  import opened FileContents
  import opened FileUpdates
  import opened WriteBudget
  import opened LogBudget

  const UINT: nat := 0x1_0000_0000
  const MAXFILE: nat := 128 * 2048

  function Min(a: nat, b: nat): nat {
    if a < b then a else b
  }

  /** The bytes to the end of the block, or all that are left. */
  function Piece(off: nat, left: nat): (m: nat)
    requires 0 < left
    ensures 0 < m <= left && off % BSIZE + m <= BSIZE
  {
    Min(left, BSIZE - off % BSIZE)
  }

  /** The unsigned sum is smaller than a term exactly when it overflows. */
  lemma Wraps(a: nat, b: nat)
    requires a < UINT && b < UINT
    ensures (a + b) % UINT < a <==> UINT <= a + b
  {
  }

  /** The loop that finds the index block and the entry in it for a block. */
  method Position(bn: nat) returns (q: nat, j: nat)
    ensures PERINDEX * q + j == bn && j < PERINDEX && bn / PERINDEX == q && bn % PERINDEX == j
  {
    q, j := 0, bn;
    while j >= PERINDEX
      invariant PERINDEX * q + j == bn
    {
      q := q + 1;
      j := j - PERINDEX;
    }
    DivMod(bn, q, j);
  }

  /** What writei() returns, with a panic of balloc() as an outcome of its own. */
  datatype WriteResult = Refused | Wrote | Panic

  // ---------------------------------------------------------------- the free map

  /** The inner loop of balloc(): one block of the free map, from bit b on. */
  method ScanMapBlock(l: Layout, disk: seq<Block>, ghost role: seq<Role>, b: nat) returns (r: Option<nat>)
    requires MapOk(l, disk, role) && b < l.size && b % BPB == 0
    ensures r.None? ==> forall x :: b <= x < b + BPB && x < l.size ==> role[x] != Free
    ensures r.Some? ==> b <= r.value < l.size && role[r.value] == Free
    ensures r.Some? ==> forall x :: b <= x < r.value ==> role[x] != Free
  {
    var bi := 0;
    while bi < BPB && b + bi < l.size
      invariant 0 <= bi <= BPB && b + bi <= l.size
      invariant forall x :: b <= x < b + bi ==> role[x] != Free
    {
      SameMapBlock(b, bi);
      assert Marked(l, disk, b + bi) <==> role[b + bi] != Free;
      if !MapBit(disk[l.bmapstart + b / BPB], bi) {
        return Some(b + bi);
      }
      bi := bi + 1;
    }
    return None;
  }

  lemma SameMapBlock(b: nat, bi: nat)
    requires b % BPB == 0 && bi < BPB
    ensures (b + bi) / BPB == b / BPB && (b + bi) % BPB == bi
  {
  }

  /** The scan of balloc(): the first clear bit of the free map. */
  method FindFree(l: Layout, disk: seq<Block>, ghost role: seq<Role>) returns (r: Option<nat>)
    requires MapOk(l, disk, role)
    ensures r.None? ==> forall b :: 0 <= b < l.size ==> role[b] != Free
    ensures r.Some? ==> r.value < l.size && role[r.value] == Free
    ensures r.Some? ==> forall b :: 0 <= b < r.value ==> role[b] != Free
  {
    var b := 0;
    while b < l.size
      invariant b % BPB == 0
      invariant forall x :: 0 <= x < b && x < l.size ==> role[x] != Free
    {
      r := ScanMapBlock(l, disk, role, b);
      if r.Some? {
        return;
      }
      b := b + BPB;
    }
    return None;
  }

  lemma Joined(c: seq<byte>, i: nat, j: nat, k: nat)
    requires i <= j <= k <= |c|
    ensures c[i..j] + c[j..k] == c[i..k]
  {
  }

  class FileSystem {
    const l: Layout
    var disk: seq<Block>
    var inodes: map<nat, Inode>
    ghost var role: seq<Role>
    ghost var taken: seq<nat>     // what balloc() took since writei() was called
    ghost var files: set<Role>    // the index and data blocks that were given to log_write(),
    ghost var updated: bool       // and whether the block of the inode was

    ghost predicate Valid()
      reads this
    {
      Owned(l, disk, inodes, role)
    }

    /** balloc() panics: the free map has no clear bit. */
    ghost predicate Full()
      reads this
    {
      Valid() && forall b :: 0 <= b < l.size ==> role[b] != Free
    }

    /** balloc() has taken all there was since the roles were role0. */
    ghost predicate RanOut(role0: seq<Role>, taken0: seq<nat>)
      reads this
    {
      Full() && Took(role0, taken0, role, taken)
    }

    constructor (l: Layout, disk: seq<Block>, inodes: map<nat, Inode>, ghost role: seq<Role>)
      requires Owned(l, disk, inodes, role)
      ensures Valid() && this.l == l && this.disk == disk && this.inodes == inodes && this.role == role
    {
      this.l := l;
      this.disk := disk;
      this.inodes := inodes;
      this.role := role;
    }

    /** balloc(): a zeroed block that was free; it is given role `use`. */
    method Balloc(ghost use: Role) returns (r: Option<nat>)
      requires Valid() && (use.Index? || use.Data?)
      modifies this`disk, this`role, this`taken, this`files
      ensures r.None? ==> disk == old(disk) && role == old(role) && taken == old(taken) && Full()
      ensures r.Some? ==> taken == old(taken) + [r.value] && files == old(files) + {use}
      ensures r.Some? ==> Took(old(role), old(taken), role, taken)
      ensures r.Some? ==> Valid() && l.nmeta <= r.value < l.size
      ensures r.Some? ==> old(role)[r.value] == Free && role == old(role)[r.value := use] && disk[r.value] == Zeroes()
      ensures r.Some? ==> forall b :: 0 <= b < r.value ==> old(role)[b] != Free
      ensures r.Some? ==> forall b :: l.nmeta <= b < l.size && b != r.value ==> disk[b] == old(disk)[b]
      ensures r.Some? ==> SameMaps(old(disk), inodes, disk, inodes) && Grown(old(disk), old(role), disk, role)
      ensures r.Some? ==> forall n, i :: n in inodes && 0 <= i ==>
        Walk(disk, inodes[n].addrs[0], i) == Walk(old(disk), inodes[n].addrs[0], i)
    {
      r := FindFree(l, disk, role);
      if r.None? {
        return;
      }
      var b := r.value;
      var m := l.bmapstart + b / BPB;
      var map' := MapOn(disk[m], b % BPB);
      MarkKeepsMap(l, disk, role, b, use);
      WriteKeepsMaps(disk, inodes, role, m, map');
      disk := disk[m := map'];
      TakeKeepsLinked(disk, inodes, role, b, use);
      TakeKeepsMaps(disk, inodes, role, b);
      DataKeepsMap(l, disk, role[b := use], b, Zeroes());
      disk := disk[b := Zeroes()];
      forall n, i | n in inodes && 0 <= i
        ensures Walk(disk, inodes[n].addrs[0], i) == Walk(old(disk), inodes[n].addrs[0], i)
      {
        WalkSame(old(disk), inodes, role, disk, n, i);
      }
      role := role[b := use];
      taken := taken + [b];
      files := files + {use};
      TookOne(old(role), old(taken), role, taken, b, use);
    }

    /** The blocks of the operation are as they were. */
    ghost predicate Idle(d0: seq<Block>, ins0: map<nat, Inode>, role0: seq<Role>, taken0: seq<nat>, files0: set<Role>)
      reads this
    {
      disk == d0 && inodes == ins0 && role == role0 && taken == taken0 && files == files0
    }

    /** The i-th index block of file n is x, and what it took since the disk was d0 to
        get there. */
    ghost predicate ChainAt(n: nat, i: nat, x: nat, d0: seq<Block>, ins0: map<nat, Inode>, role0: seq<Role>,
                            taken0: seq<nat>, files0: set<Role>)
      reads this
    {
      Reached(l, n, i, x, d0, ins0, role0, taken0, files0, disk, inodes, role, taken, files)
    }

    /** ip->addrs[0], allocated if it is missing. */
    method HeadBlock(n: nat) returns (r: Option<nat>)
      requires Valid() && n in inodes
      modifies this`disk, this`inodes, this`role, this`taken, this`files
      ensures r.None? ==>
        RanOut(old(role), old(taken)) && taken == old(taken) && Walk(old(disk), old(inodes)[n].addrs[0], 0) == 0
      ensures r.Some? ==> ChainAt(n, 0, r.value, old(disk), old(inodes), old(role), old(taken), old(files))
    {
      var addr := inodes[n].addrs[0];
      TookNone(role, taken);
      if addr != 0 {
        return Some(addr);
      }
      r := Balloc(Index(n, 0));
      if r.Some? {
        addr := r.value;
        ghost var before := inodes;
        inodes := inodes[n := inodes[n].(addrs := inodes[n].addrs[0 := addr])];
        SetHead(disk, before, role, n, addr, inodes);
        BeyondHead(old(disk), disk, addr);
      }
    }

    /** The index block behind x, the (i-1)-th of file n, allocated if missing. */
    method NextBlock(n: nat, i: nat, x: nat) returns (r: Option<nat>)
      requires Valid() && n in inodes && 0 < i && 0 < x < l.size && Walk(disk, inodes[n].addrs[0], i - 1) == x
      modifies this`disk, this`role, this`taken, this`files
      ensures r.None? ==> RanOut(old(role), old(taken)) && taken == old(taken)
      ensures r.Some? ==> Valid() && Grown(old(disk), old(role), disk, role)
      ensures r.Some? ==> SameMaps(old(disk), inodes, disk, inodes)
      ensures r.Some? ==> 0 < r.value < l.size && Walk(disk, inodes[n].addrs[0], i) == r.value
      ensures r.Some? ==> Took(old(role), old(taken), role, taken)
      ensures r.Some? ==> Beyond(old(disk), inodes[n].addrs[0], disk, inodes[n].addrs[0], i)
      ensures r.Some? && Walk(old(disk), inodes[n].addrs[0], i) == 0 ==>
        |taken| == |old(taken)| + 1 && files == old(files) + {Index(n, i), Index(n, i - 1)}
      ensures Walk(old(disk), inodes[n].addrs[0], i) != 0 ==>
        r.Some? && disk == old(disk) && role == old(role) && taken == old(taken) && files == old(files)
    {
      LinkOf(disk, inodes, role, n, i, x);
      assert l.nmeta <= x;
      var addr := Word(disk[x], PERINDEX);
      if addr != 0 {
        TookNone(role, taken);
        return Some(addr);
      }
      r := NewLink(n, i, x);
    }

    /** a[NINDIRECT-1] = balloc(), for the (i-1)-th index block x. */
    method NewLink(n: nat, i: nat, x: nat) returns (r: Option<nat>)
      requires Valid() && n in inodes && 0 < i && 0 < x < l.size && Walk(disk, inodes[n].addrs[0], i - 1) == x
      requires role[x] == Index(n, i - 1) && l.nmeta <= x && Word(disk[x], PERINDEX) == 0
      modifies this`disk, this`role, this`taken, this`files
      ensures r.None? ==> RanOut(old(role), old(taken)) && taken == old(taken)
      ensures r.Some? ==> Valid() && Grown(old(disk), old(role), disk, role)
      ensures r.Some? ==> SameMaps(old(disk), inodes, disk, inodes)
      ensures r.Some? ==> 0 < r.value < l.size && Walk(disk, inodes[n].addrs[0], i) == r.value
      ensures r.Some? ==> Took(old(role), old(taken), role, taken) && |taken| == |old(taken)| + 1
      ensures r.Some? ==> Beyond(old(disk), inodes[n].addrs[0], disk, inodes[n].addrs[0], i)
      ensures r.Some? ==> files == old(files) + {Index(n, i), Index(n, i - 1)}
    {
      ghost var d0, role0 := disk, role;
      TookNone(role, taken);
      r := Balloc(Index(n, i));
      if r.Some? {
        ghost var d1 := disk;
        assert x != r.value && disk[x] == d0[x];
        AddLink(n, i, x, r.value);
        SameMapsTrans(d0, inodes, d1, inodes, disk, inodes);
        GrownTrans(d0, role0, d1, role, disk, role);
      }
    }

    method AddLink(n: nat, i: nat, x: nat, b: nat)
      requires Valid() && n in inodes && 0 < i && 0 < x < l.size && Word(disk[x], PERINDEX) == 0
      requires role[x] == Index(n, i - 1) && 0 < b < l.size && role[b] == Index(n, i) && disk[b] == Zeroes()
      modifies this`disk, this`files
      ensures Valid() && SameMaps(old(disk), inodes, disk, inodes) && Grown(old(disk), role, disk, role)
      ensures Walk(old(disk), inodes[n].addrs[0], i - 1) == x ==> Walk(disk, inodes[n].addrs[0], i) == b
      ensures Beyond(old(disk), inodes[n].addrs[0], disk, inodes[n].addrs[0], i)
      ensures files == old(files) + {Index(n, i - 1)}
    {
      var disk' := disk[x := SetWord(disk[x], PERINDEX, b)];
      SetLink(disk, inodes, role, x, b, disk');
      forall k | i <= k ensures k == i || Walk(disk', inodes[n].addrs[0], k) == Walk(disk, inodes[n].addrs[0], k) {
        LinkWalk(disk, inodes, role, x, b, disk', n, k);
      }
      LinkWalk(disk, inodes, role, x, b, disk', n, i);
      DataKeepsMap(l, disk, role, x, disk'[x]);
      disk := disk';
      files := files + {Index(n, i - 1)};
    }

    /** There was no block for an index block on the way to the q-th. */
    ghost predicate NoChain(q: nat, d0: seq<Block>, a0: nat, role0: seq<Role>, taken0: seq<nat>)
      reads this
    {
      RanOut(role0, taken0) && Walk(d0, a0, q) == 0 && (Ends(d0, a0, q) ==> taken == taken0)
    }

    /** One turn of the loop of bmap() over the chain, from its i-th block x on. */
    method NextTurn(n: nat, i: nat, x: nat, ghost q: nat, ghost d0: seq<Block>, ghost ins0: map<nat, Inode>,
                    ghost role0: seq<Role>, ghost taken0: seq<nat>, ghost files0: set<Role>)
      returns (r: Option<nat>)
      requires ChainAt(n, i, x, d0, ins0, role0, taken0, files0) && i < q
      modifies this`disk, this`role, this`taken, this`files
      ensures r.None? ==> NoChain(q, d0, ins0[n].addrs[0], role0, taken0)
      ensures r.Some? ==> ChainAt(n, i + 1, r.value, d0, ins0, role0, taken0, files0)
    {
      ghost var d, rl, tk, fl := disk, role, taken, files;
      r := NextBlock(n, i + 1, x);
      if r.None? {
        ReachedLast(l, n, i, x, q, d0, ins0, role0, taken0, files0, d, inodes, rl, tk, fl, role, taken);
      } else {
        ReachedNext(l, n, i, x, r.value, d0, ins0, role0, taken0, files0, d, rl, tk, fl,
                    disk, inodes, role, taken, files);
      }
    }

    /** The loop, from the head of the chain to its q-th block. */
    method FollowChain(n: nat, q: nat, head: nat, ghost d0: seq<Block>, ghost ins0: map<nat, Inode>,
                       ghost role0: seq<Role>, ghost taken0: seq<nat>, ghost files0: set<Role>)
      returns (r: Option<nat>)
      requires ChainAt(n, 0, head, d0, ins0, role0, taken0, files0)
      modifies this`disk, this`role, this`taken, this`files
      ensures r.None? ==> NoChain(q, d0, ins0[n].addrs[0], role0, taken0)
      ensures r.Some? ==> ChainAt(n, q, r.value, d0, ins0, role0, taken0, files0)
    {
      r := Some(head);
      var i: nat := 0;
      while i != q
        invariant i <= q && r.Some? && ChainAt(n, i, r.value, d0, ins0, role0, taken0, files0)
      {
        r := NextTurn(n, i, r.value, q, d0, ins0, role0, taken0, files0);
        if r.None? {
          return;
        }
        i := i + 1;
      }
    }

    /** The q-th index block of file n, with the chain extended as needed. */
    method IndexBlock(n: nat, q: nat) returns (r: Option<nat>)
      requires Valid() && n in inodes
      modifies this`disk, this`inodes, this`role, this`taken, this`files
      ensures r.None? ==> NoChain(q, old(disk), old(inodes)[n].addrs[0], old(role), old(taken))
      ensures r.Some? ==> ChainAt(n, q, r.value, old(disk), old(inodes), old(role), old(taken), old(files))
    {
      ghost var d0, ins0, role0, taken0, files0 := disk, inodes, role, taken, files;
      r := HeadBlock(n);
      if r.None? {
        ChainStops(d0, ins0[n].addrs[0], 0, q);
        return;
      }
      r := FollowChain(n, q, r.value, d0, ins0, role0, taken0, files0);
    }

    /** bmap(): the disk block of block bn0 of file n.  One that is mapped costs
        nothing; one that is not gets a fresh zeroed block, and then no other
        block of any file is mapped differently from before.  None is a panic of
        balloc().  Behind a mapped block at most one index block is new. */
    method Bmap(n: nat, bn0: nat) returns (r: Option<nat>)
      requires Valid() && n in inodes
      modifies this`disk, this`inodes, this`role, this`taken, this`files
      ensures r.None? ==> RanOut(old(role), old(taken))
      ensures r.None? ==> Lacks(bn0, old(disk), old(inodes)[n], old(taken), taken)
      ensures r.Some? ==> Valid() && Placed(old(disk), old(inodes), old(role), disk, inodes, role, n, bn0, r.value)
      ensures BlockAt(old(disk), old(inodes)[n], bn0) != 0 ==>
        && r == Some(BlockAt(old(disk), old(inodes)[n], bn0))
        && Idle(old(disk), old(inodes), old(role), old(taken), old(files))
      ensures r.Some? ==>
        Charged(n, bn0, old(disk), old(inodes)[n], old(role), old(taken), old(files),
                disk, inodes[n], role, taken, files)
    {
      ghost var d0, ins0, role0, taken0, files0 := disk, inodes, role, taken, files;
      var q, bn := Position(bn0);
      r := IndexBlock(n, q);
      if r.None? {
        IndexLacks(d0, ins0[n], bn0, taken0, taken);
      } else {
        ghost var d1, ins1, role1, taken1, files1 := disk, inodes, role, taken, files;
        r := DataBlock(n, q, bn, bn0, r.value);
        if r.None? {
          TookTrans(role0, taken0, role1, taken1, role, taken);
          DataLacks(n, bn0, d0, ins0[n], role0, taken0, files0, d1, ins1[n].addrs[0], role1, taken1, files1);
        } else {
          PlacedTrans(d0, ins0, role0, d1, ins1, role1, disk, inodes, role, n, bn0, r.value);
          PathCharged(n, bn0, d0, ins0[n], role0, taken0, files0, d1, ins1[n], role1, taken1, files1,
                      disk, role, taken, files);
        }
      }
    }

    /** Entry j of the q-th index block x, block bn of the file, allocated if it is
        missing. */
    method DataBlock(n: nat, q: nat, j: nat, ghost bn: nat, x: nat) returns (r: Option<nat>)
      requires Valid() && n in inodes && j < PERINDEX && bn == PERINDEX * q + j && 0 < x < l.size
      requires Walk(disk, inodes[n].addrs[0], q) == x
      modifies this`disk, this`role, this`taken, this`files
      ensures r.None? ==> RanOut(old(role), old(taken)) && taken == old(taken)
      ensures r.Some? ==> Valid() && Placed(old(disk), inodes, old(role), disk, inodes, role, n, bn, r.value)
      ensures BlockAt(old(disk), inodes[n], bn) != 0 ==>
        r == Some(BlockAt(old(disk), inodes[n], bn)) && Idle(old(disk), inodes, old(role), old(taken), old(files))
      ensures r.Some? ==>
        Entered(n, bn, old(disk), inodes[n], old(role), old(taken), old(files), disk, role, taken, files)
    {
      DivMod(bn, q, j);
      WalkOwned(disk, inodes, role, n, q);
      assert role[x] == Index(n, q) && l.nmeta <= x;
      assert IndexOk(disk[x], n, q, role);
      var addr := Word(disk[x], j);
      if addr != 0 {
        TookNone(role, taken);
        return Some(addr);
      }
      r := NewEntry(n, q, j, bn, x);
    }

    /** a[bn] = balloc(), for entry j of the q-th index block x. */
    method NewEntry(n: nat, q: nat, j: nat, ghost bn: nat, x: nat) returns (r: Option<nat>)
      requires Valid() && n in inodes && j < PERINDEX && bn == PERINDEX * q + j && 0 < x < l.size
      requires Walk(disk, inodes[n].addrs[0], q) == x && role[x] == Index(n, q) && l.nmeta <= x
      requires BlockAt(disk, inodes[n], bn) == 0
      modifies this`disk, this`role, this`taken, this`files
      ensures r.None? ==> RanOut(old(role), old(taken)) && taken == old(taken)
      ensures r.Some? ==> Valid() && Placed(old(disk), inodes, old(role), disk, inodes, role, n, bn, r.value)
      ensures r.Some? ==> Took(old(role), old(taken), role, taken) && |taken| == |old(taken)| + 1
      ensures r.Some? ==> Beyond(old(disk), inodes[n].addrs[0], disk, inodes[n].addrs[0], q)
      ensures r.Some? ==> files == old(files) + {Data(n, bn), Index(n, q)}
    {
      ghost var d0, role0, a := disk, role, inodes[n].addrs[0];
      TookNone(role, taken);
      r := Balloc(Data(n, bn));
      if r.Some? {
        ghost var d1 := disk;
        assert x != r.value && disk[x] == d0[x] && Beyond(d0, a, d1, a, q);
        AddEntry(n, q, j, bn, x, r.value);
        PlacedNew(d0, inodes, role0, d1, disk, role, n, bn, r.value);
        BeyondTrans(d0, a, d1, a, disk, a, q, q);
      }
    }

    method AddEntry(n: nat, q: nat, j: nat, ghost bn: nat, x: nat, b: nat)
      requires Valid() && n in inodes && j < PERINDEX && bn == PERINDEX * q + j && 0 < x < l.size
      requires role[x] == Index(n, q) && Walk(disk, inodes[n].addrs[0], q) == x
      requires 0 < b < l.size && role[b] == Data(n, bn)
      modifies this`disk, this`files
      ensures Valid() && OnlyMaps(old(disk), inodes, disk, inodes, n, bn, b) && Grown(old(disk), role, disk, role)
      ensures disk[b] == old(disk)[b]
      ensures Beyond(old(disk), inodes[n].addrs[0], disk, inodes[n].addrs[0], q)
      ensures files == old(files) + {Index(n, q)}
    {
      var disk' := disk[x := SetWord(disk[x], j, b)];
      PointerKeepsLinked(disk, inodes, role, x, j, b);
      DataKeepsMap(l, disk, role, x, disk'[x]);
      forall m, i, r | m in inodes && 0 <= i && 0 <= r < PERINDEX
        ensures EntryAt(disk', inodes[m], i, r) ==
          if m == n && i == q && r == j then b else EntryAt(disk, inodes[m], i, r)
      {
        SetEntry(disk, inodes, role, x, j, b, disk', m, i, r);
      }
      EntriesOnly(disk, inodes, disk', n, q, j, b);
      BeyondEntry(disk, inodes, role, x, j, b, disk', n, q);
      disk := disk';
      files := files + {Index(n, q)};
    }

    /** The body of the loop of readi(): m bytes from one block. */
    method ReadChunk(n: nat, off: nat, m: nat) returns (s: seq<byte>)
      requires Valid() && n in inodes && Dense(disk, inodes[n])
      requires 0 < m && off + m <= inodes[n].size && off % BSIZE + m <= BSIZE
      modifies this
      ensures disk == old(disk) && inodes == old(inodes) && role == old(role)
      ensures s == Contents(disk, inodes[n])[off..off + m]
    {
      SliceReads(disk, inodes[n], off, m);
      var b := Bmap(n, off / BSIZE);
      s := disk[b.value][off % BSIZE..off % BSIZE + m];
    }

    /** readi() on a file without holes: the bytes at off, up to the end of the
        file; -1 (None) past the end or when off + n overflows 32 bits.  Nothing
        is allocated. */
    method Readi(n: nat, off0: nat, n0: nat) returns (r: Option<seq<byte>>)
      requires Valid() && n in inodes && Dense(disk, inodes[n])
      requires off0 < UINT && n0 < UINT
      modifies this
      ensures disk == old(disk) && inodes == old(inodes) && role == old(role)
      ensures r.None? <==> inodes[n].size < off0 || UINT <= off0 + n0
      ensures r.Some? ==> r.value == Contents(disk, inodes[n])[off0..Min(off0 + n0, inodes[n].size)]
    {
      Wraps(off0, n0);
      if off0 > inodes[n].size || (off0 + n0) % UINT < off0 {
        return None;
      }
      var cnt := if off0 + n0 > inodes[n].size then inodes[n].size - off0 else n0;
      var dst := ReadBytes(n, off0, cnt);
      return Some(dst);
    }

    /** A turn of the loop of readi(): the rest of a block, or of the range. */
    method ReadTurn(n: nat, off: nat, left: nat, dst: seq<byte>, ghost off0: nat, ghost c: seq<byte>)
      returns (dst': seq<byte>, m: nat)
      requires Valid() && n in inodes && Dense(disk, inodes[n]) && c == Contents(disk, inodes[n])
      requires off0 <= off && 0 < left && off + left <= inodes[n].size && dst == c[off0..off]
      modifies this
      ensures disk == old(disk) && inodes == old(inodes) && role == old(role)
      ensures 0 < m <= left && dst' == c[off0..off + m]
    {
      m := Piece(off, left);
      var s := ReadChunk(n, off, m);
      Joined(c, off0, off, off + m);
      dst' := dst + s;
    }

    /** The loop of readi(). */
    method ReadBytes(n: nat, off0: nat, cnt: nat) returns (dst: seq<byte>)
      requires Valid() && n in inodes && Dense(disk, inodes[n]) && off0 + cnt <= inodes[n].size
      modifies this
      ensures disk == old(disk) && inodes == old(inodes) && role == old(role)
      ensures dst == Contents(disk, inodes[n])[off0..off0 + cnt]
    {
      ghost var c := Contents(disk, inodes[n]);
      dst := [];
      var tot, off := 0, off0;
      while tot < cnt
        invariant disk == old(disk) && inodes == old(inodes) && role == old(role)
        invariant 0 <= tot <= cnt && off == off0 + tot
        invariant dst == c[off0..off]
      {
        var m;
        dst, m := ReadTurn(n, off, cnt - tot, dst, off0, c);
        tot := tot + m;
        off := off + m;
      }
    }

    /** The body of the loop of writei(): src into one block.  sz counts the bytes
        of the file so far, which ip->size does not before the loop ends. */
    method WriteChunk(n: nat, off: nat, src: seq<byte>, ghost sz: nat) returns (ok: bool)
      requires Valid() && n in inodes && Dense(disk, inodes[n].(size := sz))
      requires off <= sz && off % BSIZE + |src| <= BSIZE
      modifies this`disk, this`inodes, this`role, this`taken, this`files
      ensures !ok ==> RanOut(old(role), old(taken)) && Lacks(off / BSIZE, old(disk), old(inodes)[n], old(taken), taken)
      ensures ok ==> Valid() && OthersKept(old(disk), old(inodes), disk, inodes, n)
      ensures ok ==> n in inodes && inodes[n].size == old(inodes)[n].size
      ensures ok ==> Holds(disk, inodes[n].(size := Larger(sz, off + |src|)),
                           Splice(Contents(old(disk), old(inodes)[n].(size := sz)), off, src))
      ensures ok ==> Spent(n, off / BSIZE, old(disk), old(inodes)[n], old(role), old(taken), old(files),
                           disk, inodes[n], role, taken, files)
    {
      ghost var d0, ins0, role0, taken0, files0 := disk, inodes, role, taken, files;
      var r := Bmap(n, off / BSIZE);
      if r.None? {
        return false;
      }
      var b := r.value;
      ghost var d1 := disk;
      BmapKeepsContents(l, d0, ins0, role0, disk, inodes, role, n, off / BSIZE, b, n, sz);
      BmapKeepsOthers(l, d0, ins0, role0, disk, inodes, role, n, off / BSIZE, b);
      ghost var data := Patch(disk[b], off % BSIZE, src);
      ChargedSpent(n, off / BSIZE, d0, ins0, role0, taken0, files0, d1, inodes, role, taken, files, b, data);
      disk := disk[b := Patch(disk[b], off % BSIZE, src)];
      files := files + {Data(n, off / BSIZE)};
      PatchKeeps(l, d1, inodes, role, n, off, src, sz, disk);
      OthersTrans(d0, ins0, d1, inodes, disk, inodes, n);
      return true;
    }

    /** writei() has written `done` at off0 since the disk was d0; ip->size does
        not show it yet. */
    ghost predicate WriteProgress(d0: seq<Block>, ins0: map<nat, Inode>, n: nat, off0: nat, done: seq<byte>)
      reads this
    {
      Underway(l, d0, ins0, n, off0, done, disk, inodes, role)
    }

    /** And what it has taken and logged for it. */
    ghost predicate Writing(d0: seq<Block>, ins0: map<nat, Inode>, role0: seq<Role>, n: nat, off0: nat, done: seq<byte>,
                            k0: nat, k: nat)
      reads this
    {
      Progress(l, d0, ins0, role0, n, off0, done, k0, k, disk, inodes, role, taken, files)
    }

    lemma WriteStarts(n: nat, off0: nat, done: seq<byte>, k0: nat)
      requires Valid() && n in inodes && Dense(disk, inodes[n]) && off0 <= inodes[n].size && done == []
      requires taken == [] && files == {}
      ensures Writing(disk, inodes, role, n, off0, done, k0, k0)
    {
      assert inodes[n].(size := inodes[n].size) == inodes[n];
      assert Splice(Contents(disk, inodes[n]), off0, []) == Contents(disk, inodes[n]);
      TookNone(role, taken);
    }

    method WritePiece(n: nat, off: nat, piece: seq<byte>,
                      ghost d0: seq<Block>, ghost ins0: map<nat, Inode>, ghost off0: nat, ghost done: seq<byte>)
      returns (ok: bool)
      requires WriteProgress(d0, ins0, n, off0, done) && off == off0 + |done| && off % BSIZE + |piece| <= BSIZE
      modifies this`disk, this`inodes, this`role, this`taken, this`files
      ensures ok ==> WriteProgress(d0, ins0, n, off0, done + piece)
      ensures !ok ==> RanOut(old(role), old(taken)) && Lacks(off / BSIZE, old(disk), old(inodes)[n], old(taken), taken)
      ensures ok ==> Spent(n, off / BSIZE, old(disk), old(inodes)[n], old(role), old(taken), old(files),
                           disk, inodes[n], role, taken, files)
    {
      ghost var d, ins, sz := disk, inodes, Larger(ins0[n].size, off);
      ok := WriteChunk(n, off, piece, sz);
      if ok {
        OthersTrans(d0, ins0, d, ins, disk, inodes, n);
        PieceHeld(d0, ins0[n], off0, done, piece, disk, inodes[n], Contents(d, ins[n].(size := sz)));
      }
    }

    /** There were fewer blocks than needed. */
    ghost predicate OutOf(role0: seq<Role>, need: nat)
      reads this
    {
      RanOut(role0, []) && |taken| < need
    }

    method WriteStep(n: nat, off: nat, piece: seq<byte>, ghost d0: seq<Block>, ghost ins0: map<nat, Inode>,
                     ghost role0: seq<Role>, ghost off0: nat, ghost done: seq<byte>, ghost k0: nat, ghost k: nat,
                     ghost end: nat)
      returns (ok: bool)
      requires Writing(d0, ins0, role0, n, off0, done, k0, k) && off == off0 + |done| && k == off / BSIZE && k < end
      requires off % BSIZE + |piece| <= BSIZE
      modifies this`disk, this`inodes, this`role, this`taken, this`files
      ensures ok ==> Writing(d0, ins0, role0, n, off0, done + piece, k0, k + 1)
      ensures !ok ==> OutOf(role0, WriteTakes(d0, ins0[n], k0, end))
    {
      ghost var d, ino, rl, tk, fl := disk, inodes[n], role, taken, files;
      PrevMapped(d, ino, Larger(ins0[n].size, off0 + |done|), off, k);
      ok := WritePiece(n, off, piece, d0, ins0, off0, done);
      if !ok {
        TallyLacks(n, k0, k, d0, ins0[n], role0, d, ino, rl, tk, fl, role, taken, end);
      } else {
        TallyNext(n, k0, k, d0, ins0[n], role0, d, ino, rl, tk, fl, disk, inodes[n], role, taken, files);
      }
    }

    /** The body of the loop: the rest of a block, or of src. */
    method WriteTurn(n: nat, src: seq<byte>, tot: nat, off: nat, ghost d0: seq<Block>, ghost ins0: map<nat, Inode>,
                     ghost role0: seq<Role>, ghost off0: nat, ghost k0: nat, ghost k: nat, ghost end: nat)
      returns (ok: bool, tot': nat, off': nat)
      requires tot < |src| && off == off0 + tot && Upto(off0, tot, |src|, k) && end == End(off0, |src|)
      requires Writing(d0, ins0, role0, n, off0, src[..tot], k0, k)
      modifies this`disk, this`inodes, this`role, this`taken, this`files
      ensures tot < tot' <= |src| && off' == off0 + tot' && Upto(off0, tot', |src|, k + 1)
      ensures ok ==> Writing(d0, ins0, role0, n, off0, src[..tot'], k0, k + 1)
      ensures !ok ==> OutOf(role0, WriteTakes(d0, ins0[n], k0, end))
    {
      var m := Min(|src| - tot, BSIZE - off % BSIZE);
      UptoNext(off0, tot, |src|, k, off, m);
      tot', off' := tot + m, off + m;
      JoinPieces(src, tot, tot');
      ok := WriteStep(n, off, src[tot..tot'], d0, ins0, role0, off0, src[..tot], k0, k, end);
    }

    /** writei() on a file without holes overwrites and extends one flat sequence
        of bytes, leaves the file without holes and all other files alone.  A piece of
        CHUNK bytes logs at most MAXOPBLOCKS blocks unless it overdraws. */
    method Writei(n: nat, src: seq<byte>, off0: nat) returns (r: WriteResult)
      requires Valid() && n in inodes && Dense(disk, inodes[n])
      requires off0 < UINT && |src| < UINT
      modifies this
      ensures r == Refused <==> old(inodes)[n].size < off0 || MAXFILE * BSIZE < off0 + |src|
      ensures r == Refused ==> disk == old(disk) && inodes == old(inodes) && role == old(role)
      ensures r == Panic ==> Full()
      ensures r == Panic <==>
        && r != Refused
        && |FreeBlocks(old(role))| < WriteTakes(old(disk), old(inodes)[n], off0 / BSIZE, End(off0, |src|))
      ensures r == Wrote ==> Valid() && OthersKept(old(disk), old(inodes), disk, inodes, n)
      ensures r == Wrote ==>
        n in inodes && Holds(disk, inodes[n], Splice(Contents(old(disk), old(inodes)[n]), off0, src))
      ensures r == Wrote ==> Bill(n, off0, |src|, old(disk), old(inodes)[n], old(role), role, taken, files)
      ensures r == Wrote ==> (updated <==> old(inodes)[n].size < off0 + |src|)
      ensures r == Wrote && |src| <= CHUNK ==> LogCount(files, taken, updated) <= MAXOPBLOCKS + 1
      ensures r == Wrote && |src| <= CHUNK ==>
        (LogCount(files, taken, updated) <= MAXOPBLOCKS <==>
         !Overdraws(old(disk), old(inodes)[n], old(role), off0, |src|))
      ensures r == Wrote ==> forall ib :: 0 <= ib < l.bmapstart ==>
        |LoggedBlocks(l, disk, inodes[n], files, taken, updated, ib)| == LogCount(files, taken, updated)
    {
      Wraps(off0, |src|);
      if off0 > inodes[n].size || (off0 + |src|) % UINT < off0 {
        return Refused;
      }
      if off0 + |src| > MAXFILE * BSIZE {
        return Refused;
      }
      ghost var d0, ino0, role0 := disk, inodes[n], role;
      r := WriteBytes(n, src, off0);
      if r == Wrote {
        WriteCountsBlocks(l, d0, ino0, role0, off0, |src|, disk, inodes, role, n, files, taken, updated);
        if |src| <= CHUNK {
          PieceLogs(d0, ino0, role0, n, off0, |src|, role, taken, files, updated);
        }
      }
    }

    /** filewrite() has written `done` at off0 since the disk was d0. */
    ghost predicate FileProgress(d0: seq<Block>, ins0: map<nat, Inode>, n: nat, off0: nat, done: seq<byte>)
      reads this
    {
      Spliced(l, d0, ins0, n, off0, done, disk, inodes, role)
    }

    /** One operation of filewrite(): a piece at off. */
    method FilePiece(n: nat, piece: seq<byte>, off: nat,
                     ghost d0: seq<Block>, ghost ins0: map<nat, Inode>, ghost off0: nat, ghost done: seq<byte>)
      returns (r: WriteResult, ghost logged: nat)
      requires FileProgress(d0, ins0, n, off0, done) && off == off0 + |done| < UINT && 0 < |piece| <= CHUNK
      modifies this
      ensures r == Panic ==> Full()
      ensures r == Wrote ==> FileProgress(d0, ins0, n, off0, done + piece)
      ensures r == Refused ==> FileProgress(d0, ins0, n, off0, done)
      ensures r == Refused <==> ins0[n].size < off0 || MAXFILE * BSIZE < off + |piece|
      ensures logged <= MAXOPBLOCKS + 1
    {
      ghost var d, ins, rl := disk, inodes, role;
      r := Writei(n, piece, off);
      logged := 0;
      if r == Wrote {
        logged := LogCount(files, taken, updated);
        SplicedNext(l, d0, ins0, n, off0, done, d, ins, rl, off, piece, disk, inodes, role);
      }
    }

    /** A turn of its loop: i bytes are written, and then i'. */
    method FileTurn(n: nat, addr: seq<byte>, i: nat, off: nat,
                    ghost d0: seq<Block>, ghost ins0: map<nat, Inode>, ghost off0: nat)
      returns (r: WriteResult, i': nat, off': nat, ghost logged: nat)
      requires i < |addr| && Boundary(i, |addr|) && off == off0 + i < UINT && FileProgress(d0, ins0, n, off0, addr[..i])
      modifies this
      ensures i <= i' <= |addr| && off' == off0 + i' && (r == Wrote <==> i < i')
      ensures if r == Panic then Full() else FileProgress(d0, ins0, n, off0, addr[..i'])
      ensures r == Wrote ==> off0 <= ins0[n].size && off' <= MAXFILE * BSIZE
      ensures Boundary(i', |addr|)
      ensures r == Refused ==> i' == i && (ins0[n].size < off0 || MAXFILE * BSIZE < off + Min(|addr| - i, CHUNK))
      ensures logged <= MAXOPBLOCKS + 1
    {
      var n1 := Min(|addr| - i, CHUNK);
      i', off' := i + n1, off + n1;
      NextBoundary(i, |addr|, n1);
      JoinPieces(addr, i, i');
      r, logged := FilePiece(n, addr[i..i'], off, d0, ins0, off0, addr[..i]);
      if r != Wrote {
        i', off' := i, off;
      }
    }

    /** filewrite() on an inode: the pieces, an operation each, make one write.  It
        stops with -1 at the first piece that writei() refuses, which is the first of all
        past the end of the file or the first that ends over the largest size, and keeps
        those before. */
    method Filewrite(n: nat, addr: seq<byte>, off0: nat) returns (r: WriteResult, i: nat, ghost logged: seq<nat>)
      requires Valid() && n in inodes && Dense(disk, inodes[n])
      requires off0 < UINT && |addr| < UINT / 2
      modifies this
      ensures i <= |addr|
      ensures if r == Panic then Full() else FileProgress(old(disk), old(inodes), n, off0, addr[..i])
      ensures r == Wrote ==> i == |addr|
      ensures r == Wrote ==> addr == [] || (off0 <= old(inodes)[n].size && off0 + |addr| <= MAXFILE * BSIZE)
      ensures r == Refused ==> i < |addr| && i % CHUNK == 0 && (old(inodes)[n].size < off0 ==> i == 0)
      ensures r == Refused && off0 <= old(inodes)[n].size ==>
        (i == 0 || off0 + i <= MAXFILE * BSIZE) && MAXFILE * BSIZE < off0 + i + Min(|addr| - i, CHUNK)
      ensures forall k :: 0 <= k < |logged| ==> logged[k] <= MAXOPBLOCKS + 1
    {
      ghost var d0, ins0 := disk, inodes;
      FileStarts(n, off0, addr[..0]);
      logged := [];
      i := 0;
      r := Wrote;
      var off: nat := off0;
      while i < |addr| && r == Wrote
        invariant i <= |addr| && off == off0 + i
        invariant if r == Panic then Full() else FileProgress(d0, ins0, n, off0, addr[..i])
        invariant Boundary(i, |addr|)
        invariant 0 < i ==> off0 <= ins0[n].size && off <= MAXFILE * BSIZE < UINT
        invariant r == Refused ==>
          i < |addr| && (ins0[n].size < off0 || MAXFILE * BSIZE < off + Min(|addr| - i, CHUNK))
        invariant forall k :: 0 <= k < |logged| ==> logged[k] <= MAXOPBLOCKS + 1
        decreases |addr| - i, r == Wrote
      {
        ghost var count;
        r, i, off, count := FileTurn(n, addr, i, off, d0, ins0, off0);
        logged := logged + [count];
      }
    }

    lemma FileStarts(n: nat, off0: nat, done: seq<byte>)
      requires Valid() && n in inodes && Dense(disk, inodes[n]) && done == []
      ensures FileProgress(disk, inodes, n, off0, done)
    {
      if off0 <= inodes[n].size {
        assert Splice(Contents(disk, inodes[n]), off0, []) == Contents(disk, inodes[n]);
      }
    }

    /** The loop of writei() and the update of ip->size after it. */
    method WriteBytes(n: nat, src: seq<byte>, off0: nat) returns (r: WriteResult)
      requires Valid() && n in inodes && Dense(disk, inodes[n]) && off0 <= inodes[n].size
      modifies this
      ensures r == Wrote || r == Panic
      ensures r == Panic ==> Full()
      ensures r == Panic <==>
        |FreeBlocks(old(role))| < WriteTakes(old(disk), old(inodes)[n], off0 / BSIZE, End(off0, |src|))
      ensures r == Wrote ==> Valid() && OthersKept(old(disk), old(inodes), disk, inodes, n)
      ensures r == Wrote ==>
        n in inodes && Holds(disk, inodes[n], Splice(Contents(old(disk), old(inodes)[n]), off0, src))
      ensures r == Wrote ==> Bill(n, off0, |src|, old(disk), old(inodes)[n], old(role), role, taken, files)
      ensures r == Wrote ==> (updated <==> old(inodes)[n].size < off0 + |src|)
    {
      ghost var d0, ins0 := disk, inodes;
      var ok := WriteLoop(n, src, off0);
      if !ok {
        return Panic;
      }
      EndWrite(n, src, off0 + |src|, d0, ins0, off0);
      return Wrote;
    }

    method WriteLoop(n: nat, src: seq<byte>, off0: nat) returns (ok: bool)
      requires Valid() && n in inodes && Dense(disk, inodes[n]) && off0 <= inodes[n].size
      modifies this
      ensures off0 / BSIZE <= End(off0, |src|)
      ensures !ok ==> Full()
      ensures ok <==> WriteTakes(old(disk), old(inodes)[n], off0 / BSIZE, End(off0, |src|)) <= |FreeBlocks(old(role))|
      ensures ok ==>
        Writing(old(disk), old(inodes), old(role), n, off0, src, off0 / BSIZE, End(off0, |src|)) && !updated
    {
      taken, files, updated := [], {}, false;
      WriteStarts(n, off0, src[..0], off0 / BSIZE);
      ghost var role0 := role;
      ok := WriteRest(n, src, off0, disk, inodes, role, off0 / BSIZE, End(off0, |src|));
      TakenFree(role0, role, taken);
    }

    method WriteRest(n: nat, src: seq<byte>, off0: nat, ghost d0: seq<Block>, ghost ins0: map<nat, Inode>,
                     ghost role0: seq<Role>, ghost k0: nat, ghost end: nat)
      returns (ok: bool)
      requires Writing(d0, ins0, role0, n, off0, src[..0], k0, k0) && Upto(off0, 0, |src|, k0)
      requires k0 <= end == End(off0, |src|)
      modifies this`disk, this`inodes, this`role, this`taken, this`files
      ensures ok ==> Writing(d0, ins0, role0, n, off0, src, k0, end)
      ensures !ok ==> OutOf(role0, WriteTakes(d0, ins0[n], k0, end))
    {
      var tot: nat, off: nat := 0, off0;
      ghost var k: nat := k0;
      while tot < |src|
        invariant tot <= |src| && off == off0 + tot && Upto(off0, tot, |src|, k)
        invariant Writing(d0, ins0, role0, n, off0, src[..tot], k0, k)
      {
        ok, tot, off := WriteTurn(n, src, tot, off, d0, ins0, role0, off0, k0, k, end);
        if !ok {
          return;
        }
        k := k + 1;
      }
      UptoEnd(off0, tot, |src|, k);
      assert src[..tot] == src;
      return true;
    }

    method EndWrite(n: nat, src: seq<byte>, off: nat, ghost d0: seq<Block>, ghost ins0: map<nat, Inode>,
                    ghost off0: nat)
      requires WriteProgress(d0, ins0, n, off0, src) && off == off0 + |src| && !updated
      modifies this`inodes, this`updated
      ensures Valid() && OthersKept(d0, ins0, disk, inodes, n)
      ensures n in inodes && Holds(disk, inodes[n], Splice(Contents(d0, ins0[n]), off0, src))
      ensures updated <==> ins0[n].size < off
    {
      ghost var ins := inodes;
      if |src| > 0 && off > inodes[n].size {
        SetSize(n, off);
      }
      SizeShown(d0, ins0, disk, ins, inodes, n, off0, src);
    }

    /** ip->size = off; iupdate(ip). */
    method SetSize(n: nat, size: nat)
      requires Valid() && n in inodes
      modifies this`inodes, this`updated
      ensures Valid() && inodes == old(inodes)[n := old(inodes)[n].(size := size)] && updated
    {
      inodes := inodes[n := inodes[n].(size := size)];
      updated := true;
    }

    /** bfree(): clears the bit of b in the free map; a clear bit is a panic. */
    method Bfree(b: nat) returns (ok: bool)
      requires MapOk(l, disk, role) && l.nmeta <= b < l.size
      modifies this`disk, this`role
      ensures ok <==> old(role)[b] != Free
      ensures MapOk(l, disk, role)
      ensures role == old(role)[b := Free]
      ensures forall x :: l.nmeta <= x < l.size ==> disk[x] == old(disk)[x]
      ensures Linked(old(disk), inodes, old(role)) ==>
        Linked(disk, inodes, old(role)) && SameMaps(old(disk), inodes, disk, inodes)
    {
      var m := l.bmapstart + b / BPB;
      assert Marked(l, disk, b) <==> role[b] != Free;
      if !MapBit(disk[m], b % BPB) {
        return false;
      }
      var map' := MapOff(disk[m], b % BPB);
      ClearKeepsMap(l, disk, role, b);
      if Linked(disk, inodes, role) {
        WriteKeepsMaps(disk, inodes, role, m, map');
      }
      disk := disk[m := map'];
      role := role[b := Free];
      return true;
    }

    /** bfree(ip->addrs[0]); ip->addrs[0] = 0. */
    method FreeHead(n: nat)
      requires Valid() && n in inodes && inodes[n].addrs[0] != 0
      modifies this
      ensures Valid() && OthersKept(old(disk), old(inodes), disk, inodes, n)
      ensures inodes == old(inodes)[n := old(inodes)[n].(addrs := old(inodes)[n].addrs[0 := 0])]
      ensures role == old(role)[old(inodes)[n].addrs[0] := Free]
    {
      ghost var d0, ins0, role0 := disk, inodes, role;
      var head := inodes[n].addrs[0];
      assert role[head] == Index(n, 0);
      var ok := Bfree(head);
      assert ok;
      inodes := inodes[n := inodes[n].(addrs := inodes[n].addrs[0 := 0])];
      DropHead(disk, ins0, role0, n, inodes, role);
      FreeKeepsOthers(l, d0, ins0, role0, disk, inodes, n);
    }

    method TruncTurn(n: nat, i: nat, ghost d0: seq<Block>, ghost ins0: map<nat, Inode>, ghost role0: seq<Role>)
      requires Truncated(l, d0, ins0, role0, n, i, disk, inodes, role) && i < NADDRS - 1
      modifies this
      ensures Truncated(l, d0, ins0, role0, n, i + 1, disk, inodes, role)
    {
      if inodes[n].addrs[i] != 0 {
        ghost var d, ins := disk, inodes;
        FreeHead(n);
        OthersTrans(d0, ins0, d, ins, disk, inodes, n);
      }
    }

    /** itrunc(): the file is empty, its head index block is free again, and no
        other block or file is touched; bfree() does not panic. */
    method Itrunc(n: nat)
      requires Valid() && n in inodes
      modifies this
      ensures Valid() && OthersKept(old(disk), old(inodes), disk, inodes, n)
      ensures n in inodes && inodes[n].size == 0 && forall i :: 0 <= i < NADDRS ==> inodes[n].addrs[i] == 0
      ensures role == if old(inodes)[n].addrs[0] == 0 then old(role) else old(role)[old(inodes)[n].addrs[0] := Free]
    {
      TruncLoop(n);
      // addrs[NDIRECT] is 0: no chain has its head there
      assert inodes[n].addrs[NADDRS - 1] == 0;
      SetSize(n, 0);
    }

    /** The loop over ip->addrs. */
    method TruncLoop(n: nat)
      requires Valid() && n in inodes
      modifies this
      ensures Truncated(l, old(disk), old(inodes), old(role), n, NADDRS - 1, disk, inodes, role)
    {
      ghost var d0, ins0, role0 := disk, inodes, role;
      var i := 0;
      while i < NADDRS - 1
        invariant 0 <= i <= NADDRS - 1
        invariant Truncated(l, d0, ins0, role0, n, i, disk, inodes, role)
      {
        TruncTurn(n, i, d0, ins0, role0);
        i := i + 1;
      }
    }
  }

  lemma PieceHeld(d0: seq<Block>, ino0: Inode, off0: nat, done: seq<byte>, piece: seq<byte>,
                  d: seq<Block>, ino: Inode, c: seq<byte>)
    requires Dense(d0, ino0) && off0 <= ino0.size && c == Splice(Contents(d0, ino0), off0, done)
    requires var sz := Larger(ino0.size, off0 + |done|);
      |c| == sz && Holds(d, ino.(size := Larger(sz, off0 + |done| + |piece|)), Splice(c, off0 + |done|, piece))
    ensures Holds(d, ino.(size := Larger(ino0.size, off0 + |done + piece|)),
                  Splice(Contents(d0, ino0), off0, done + piece))
  {
    SpliceTwice(Contents(d0, ino0), off0, done, piece);
  }

  lemma SizeShown(d0: seq<Block>, ins0: map<nat, Inode>, d: seq<Block>, ins: map<nat, Inode>, ins': map<nat, Inode>,
                  n: nat, off0: nat, src: seq<byte>)
    requires n in ins0 && n in ins && ins[n].size == ins0[n].size && Dense(d0, ins0[n]) && off0 <= ins0[n].size
    requires Holds(d, ins[n].(size := Larger(ins0[n].size, off0 + |src|)), Splice(Contents(d0, ins0[n]), off0, src))
    requires OthersKept(d0, ins0, d, ins, n)
    requires ins' == if 0 < |src| && ins[n].size < off0 + |src| then ins[n := ins[n].(size := off0 + |src|)] else ins
    ensures Holds(d, ins'[n], Splice(Contents(d0, ins0[n]), off0, src)) && OthersKept(d0, ins0, d, ins', n)
  {
    assert ins'[n] == ins[n].(size := Larger(ins0[n].size, off0 + |src|));
    assert ins' == ins[n := ins'[n]];
    OthersIgnore(d0, ins0, d, ins, ins', n);
  }
}
