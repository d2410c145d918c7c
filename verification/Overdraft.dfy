/**
  A disk on which a piece of a write overdraws: a nearly full one, with a free block
  in each block of the free map and a file that fills its first index block.
*/
module Overdraft {
  import opened DiskBytes
  import opened FileChain
  import opened FileContents
  import opened WriteBudget
  import opened LogBudget
  import FileSystem

  const HEAD: nat := 10
  const FIRST: nat := 11
  const TIGHT: Layout := Layout(4 * BPB, 10, 2)

  /** Block 10 is the index block of file 1, the next 127 blocks are its data, and of
      the others the last in each block of the free map is free. */
  function Use(b: nat): Role {
    if b < HEAD then Meta
    else if b == HEAD then Index(1, 0)
    else if b < FIRST + PERINDEX then Data(1, b - FIRST)
    else if b % BPB == BPB - 1 then Free
    else Data(0, b)
  }

  function MapPage(): (b: Block)
    ensures forall i :: 0 <= i < BSIZE ==> b[i] == if i == BSIZE - 1 then 127 else 255
  {
    seq(BSIZE, i => if i == BSIZE - 1 then 127 else 255)
  }

  function IndexByte(i: nat): byte {
    if i % 4 == 0 && i < 4 * PERINDEX then FIRST + i / 4 else 0
  }

  function IndexPage(): (b: Block)
    ensures forall i :: 0 <= i < BSIZE ==> b[i] == IndexByte(i)
  {
    seq(BSIZE, i requires 0 <= i => IndexByte(i))
  }

  function Page(b: nat): Block {
    if 2 <= b < 6 then MapPage() else if b == HEAD then IndexPage() else Zeroes()
  }

  function Disk(): (d: seq<Block>)
    ensures |d| == TIGHT.size && forall b :: 0 <= b < |d| ==> d[b] == Page(b)
  {
    seq(TIGHT.size, b requires 0 <= b => Page(b))
  }

  function Uses(): (r: seq<Role>)
    ensures |r| == TIGHT.size && forall b :: 0 <= b < |r| ==> r[b] == Use(b)
  {
    seq(TIGHT.size, b requires 0 <= b => Use(b))
  }

  /** The file ends with the first byte of its last block. */
  function File(): Inode {
    Inode(126 * BSIZE + 1, [HEAD] + seq(NADDRS - 1, _ => 0))
  }

  lemma Bits(k: nat)
    requires k < 8
    ensures Bit(255, k) && (Bit(127, k) <==> k < 7)
  {
    assert Bit(1, 0) && Bit(3, 1) && Bit(7, 2) && Bit(15, 3) && Bit(31, 4) && Bit(63, 5);
  }

  lemma MapPageBit(i: nat)
    requires i < BPB
    ensures MapBit(MapPage(), i) <==> i != BPB - 1
  {
    Bits(i % 8);
  }

  lemma IndexPageWord(j: nat)
    requires j < NINDIRECT
    ensures Word(IndexPage(), j) == if j < PERINDEX then FIRST + j else 0
  {
  }

  lemma MapFits()
    ensures MapOk(TIGHT, Disk(), Uses())
  {
    forall b | 0 <= b < TIGHT.size ensures Marked(TIGHT, Disk(), b) <==> Uses()[b] != Free {
      MapPageBit(b % BPB);
      assert 2 <= TIGHT.bmapstart + b / BPB < 6;
    }
  }

  lemma LinksFit()
    ensures Linked(Disk(), map[1 := File()], Uses())
  {
    forall j | 0 <= j < PERINDEX ensures PtrOk(Word(IndexPage(), j), Uses(), Data(1, PERINDEX * 0 + j)) {
      IndexPageWord(j);
    }
    IndexPageWord(PERINDEX);
    assert IndexOk(Disk()[HEAD], 1, 0, Uses());
  }

  lemma Walks(bn: nat)
    ensures Walk(Disk(), HEAD, 0) == HEAD && Walk(Disk(), HEAD, 1) == 0
    ensures bn < PERINDEX ==> BlockAt(Disk(), File(), bn) == FIRST + bn
    ensures PERINDEX <= bn < 2 * PERINDEX ==> BlockAt(Disk(), File(), bn) == 0
  {
    IndexPageWord(PERINDEX);
    if bn < PERINDEX {
      IndexPageWord(bn);
    }
  }

  lemma FreeFour()
    ensures FreeBlocks(Uses()) == {BPB - 1, 2 * BPB - 1, 3 * BPB - 1, 4 * BPB - 1}
  {
    forall b | b in FreeBlocks(Uses()) ensures b in {BPB - 1, 2 * BPB - 1, 3 * BPB - 1, 4 * BPB - 1} {
      assert b % BPB == BPB - 1 && b < 4 * BPB;
    }
  }

  lemma FourFree()
    ensures Scattered(Uses())
  {
    var f := [BPB - 1, 2 * BPB - 1, 3 * BPB - 1, 4 * BPB - 1];
    FreeFour();
    assert forall b :: 0 <= b < TIGHT.size && Uses()[b] == Free ==> b in FreeBlocks(Uses());
    assert forall i :: 0 <= i < 4 ==> f[i] in FreeBlocks(Uses()) && f[i] / BPB == i;
    assert FirstFree(Uses(), f) && Spread(f);
  }

  /** A valid disk, a file without holes and a piece at its end that logs one block more
      than an operation may. */
  lemma PieceOverdraws()
    ensures Owned(TIGHT, Disk(), map[1 := File()], Uses()) && Dense(Disk(), File())
    ensures Overdraws(Disk(), File(), Uses(), File().size, CHUNK)
  {
    MapFits();
    LinksFit();
    forall bn | 0 <= bn && bn * BSIZE < File().size ensures 0 < BlockAt(Disk(), File(), bn) < |Disk()| {
      Walks(bn);
    }
    Walks(127);
    Walks(128);
    Walks(129);
    FourFree();
  }

  /** A piece that overdraws finds its blocks and is written, with one block too many
      in the log. */
  method Overdraw(l: Layout, disk: seq<Block>, inodes: map<nat, Inode>, ghost role: seq<Role>, n: nat,
                  src: seq<byte>, off: nat)
    returns (r: FileSystem.WriteResult, ghost logged: nat)
    requires Owned(l, disk, inodes, role) && n in inodes && Dense(disk, inodes[n])
    requires off <= inodes[n].size && |src| <= CHUNK && off + |src| <= FileSystem.MAXFILE * BSIZE
    requires Overdraws(disk, inodes[n], role, off, |src|)
    ensures r == FileSystem.Wrote && logged == MAXOPBLOCKS + 1
  {
    PieceSpan(disk, inodes[n], off, |src|);
    LongTakes(disk, inodes[n], off / BSIZE);
    ScatteredFree(role);
    var fs := new FileSystem.FileSystem(l, disk, inodes, role);
    r := fs.Writei(n, src, off);
    logged := LogCount(fs.files, fs.taken, fs.updated);
  }

  /** So writei() logs too much on the disk above. */
  method LogTooMuch() returns (r: FileSystem.WriteResult, ghost logged: nat)
    ensures r == FileSystem.Wrote && logged == MAXOPBLOCKS + 1
  {
    PieceOverdraws();
    r, logged := Overdraw(TIGHT, Disk(), map[1 := File()], Uses(), 1, seq(CHUNK, _ => 0), File().size);
  }
}
