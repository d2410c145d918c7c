/** The bytes of a file, read through its chain of index blocks. */
module FileContents {
  import opened DiskBytes
  import opened FileChain

  /** Every block below the size of the file is mapped. */
  ghost predicate Dense(disk: seq<Block>, ino: Inode)
  {
    0 < |ino.addrs| &&
    forall bn :: 0 <= bn && bn * BSIZE < ino.size ==> 0 < BlockAt(disk, ino, bn) < |disk|
  }

  ghost function ByteAt(disk: seq<Block>, ino: Inode, k: nat): byte
    requires Dense(disk, ino) && k < ino.size
  {
    BlockBelow(k, ino.size);
    disk[BlockAt(disk, ino, k / BSIZE)][k % BSIZE]
  }

  lemma BlockBelow(k: nat, size: nat)
    requires k < size
    ensures k / BSIZE * BSIZE < size
  {
  }

  ghost function Contents(disk: seq<Block>, ino: Inode): (c: seq<byte>)
    requires Dense(disk, ino)
    ensures |c| == ino.size
    ensures forall k :: 0 <= k < ino.size ==> c[k] == ByteAt(disk, ino, k)
  {
    seq(ino.size, k requires 0 <= k < ino.size => ByteAt(disk, ino, k))
  }

  /** src written over c at off; past the end the file grows. */
  function Splice(c: seq<byte>, off: nat, src: seq<byte>): (r: seq<byte>)
    requires off <= |c|
    ensures |r| == if off + |src| < |c| then |c| else off + |src|
    ensures forall k :: 0 <= k < |r| ==> r[k] == if off <= k < off + |src| then src[k - off] else c[k]
  {
    c[..off] + src + (if off + |src| < |c| then c[off + |src|..] else [])
  }

  /** Writing in two pieces is writing once. */
  lemma SpliceTwice(c: seq<byte>, off: nat, a: seq<byte>, b: seq<byte>)
    requires off <= |c|
    ensures Splice(Splice(c, off, a), off + |a|, b) == Splice(c, off, a + b)
  {
  }

  /** A file whose blocks and their bytes are the same has the same contents. */
  lemma SameContents(disk: seq<Block>, ino: Inode, disk': seq<Block>, ino': Inode)
    requires Dense(disk, ino) && ino'.size == ino.size && 0 < |ino'.addrs| && |disk'| == |disk|
    requires forall bn :: 0 <= bn && bn * BSIZE < ino.size ==>
      BlockAt(disk', ino', bn) == BlockAt(disk, ino, bn) &&
      disk'[BlockAt(disk, ino, bn)] == disk[BlockAt(disk, ino, bn)]
    ensures Dense(disk', ino') && Contents(disk', ino') == Contents(disk, ino)
  {
    forall k | 0 <= k < ino.size ensures ByteAt(disk', ino', k) == ByteAt(disk, ino, k) {
      BlockBelow(k, ino.size);
    }
  }

  /** A block with src put in at position at. */
  function Patch(b: Block, at: nat, src: seq<byte>): (r: Block)
    requires at + |src| <= BSIZE
    ensures forall k :: 0 <= k < BSIZE ==> r[k] == if at <= k < at + |src| then src[k - at] else b[k]
  {
    b[..at] + src + b[at + |src|..]
  }

  ghost predicate Injective(disk: seq<Block>, ino: Inode)
    requires 0 < |ino.addrs|
  {
    forall i, j :: 0 <= i && 0 <= j && BlockAt(disk, ino, i) == BlockAt(disk, ino, j) != 0 ==> i == j
  }

  ghost function Larger(a: nat, b: nat): nat {
    if a < b then b else a
  }

  /** Writing m bytes inside block off / BSIZE, which is mapped, splices them in. */
  lemma PatchWrites(disk: seq<Block>, ino: Inode, off: nat, src: seq<byte>, disk': seq<Block>, ino': Inode)
    requires Dense(disk, ino) && Injective(disk, ino) && off <= ino.size
    requires off % BSIZE + |src| <= BSIZE && 0 < BlockAt(disk, ino, off / BSIZE) < |disk|
    requires ino' == ino.(size := Larger(ino.size, off + |src|))
    requires |disk'| == |disk|
    requires disk'[BlockAt(disk, ino, off / BSIZE)] == Patch(disk[BlockAt(disk, ino, off / BSIZE)], off % BSIZE, src)
    requires forall b :: 0 <= b < |disk| && b != BlockAt(disk, ino, off / BSIZE) ==> disk'[b] == disk[b]
    requires forall bn :: 0 <= bn ==> BlockAt(disk', ino', bn) == BlockAt(disk, ino, bn)
    ensures Dense(disk', ino') && Contents(disk', ino') == Splice(Contents(disk, ino), off, src)
  {
    forall bn | 0 <= bn && bn * BSIZE < ino'.size ensures 0 < BlockAt(disk', ino', bn) < |disk'| {
      NewBlocks(ino.size, off, |src|, bn);
    }
    var c, r := Contents(disk, ino), Splice(Contents(disk, ino), off, src);
    forall k | 0 <= k < ino'.size ensures ByteAt(disk', ino', k) == r[k] {
      PatchByte(disk, ino, off, src, disk', ino', k);
    }
  }

  lemma NewBlocks(size: nat, off: nat, m: nat, bn: nat)
    requires off <= size && off % BSIZE + m <= BSIZE && bn * BSIZE < Larger(size, off + m)
    ensures bn * BSIZE < size || bn == off / BSIZE
  {
  }

  lemma PatchByte(disk: seq<Block>, ino: Inode, off: nat, src: seq<byte>, disk': seq<Block>, ino': Inode, k: nat)
    requires Dense(disk, ino) && Injective(disk, ino) && off <= ino.size
    requires off % BSIZE + |src| <= BSIZE && 0 < BlockAt(disk, ino, off / BSIZE) < |disk|
    requires ino' == ino.(size := Larger(ino.size, off + |src|)) && k < ino'.size && Dense(disk', ino')
    requires |disk'| == |disk|
    requires disk'[BlockAt(disk, ino, off / BSIZE)] == Patch(disk[BlockAt(disk, ino, off / BSIZE)], off % BSIZE, src)
    requires forall b :: 0 <= b < |disk| && b != BlockAt(disk, ino, off / BSIZE) ==> disk'[b] == disk[b]
    requires forall bn :: 0 <= bn ==> BlockAt(disk', ino', bn) == BlockAt(disk, ino, bn)
    ensures ByteAt(disk', ino', k) == if off <= k < off + |src| then src[k - off] else ByteAt(disk, ino, k)
  {
    BlockBelow(k, ino'.size);
    SameBlock(off, |src|, k);
    if k < ino.size {
      BlockBelow(k, ino.size);
    }
  }

  lemma SameBlock(off: nat, m: nat, k: nat)
    requires off % BSIZE + m <= BSIZE
    ensures off <= k < off + m <==> k / BSIZE == off / BSIZE && off % BSIZE <= k % BSIZE < off % BSIZE + m
    ensures off <= k < off + m ==> k - off == k % BSIZE - off % BSIZE
  {
  }

  /** A run of bytes inside one block. */
  lemma SliceReads(disk: seq<Block>, ino: Inode, off: nat, m: nat)
    requires Dense(disk, ino) && off + m <= ino.size && off % BSIZE + m <= BSIZE && 0 < m
    ensures 0 < BlockAt(disk, ino, off / BSIZE) < |disk|
    ensures disk[BlockAt(disk, ino, off / BSIZE)][off % BSIZE..off % BSIZE + m] == Contents(disk, ino)[off..off + m]
  {
    BlockBelow(off, ino.size);
    var b := disk[BlockAt(disk, ino, off / BSIZE)];
    var s := b[off % BSIZE..off % BSIZE + m];
    var c := Contents(disk, ino)[off..off + m];
    forall i | 0 <= i < m ensures s[i] == c[i] {
      SameBlock(off, m, off + i);
    }
  }
}
