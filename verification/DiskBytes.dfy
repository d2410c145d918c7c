/** Disk blocks as bytes: little-endian words and bits inside a block. */
module DiskBytes {

  const BSIZE: nat := 512
  const NINDIRECT: nat := 128
  const BPB: nat := 4096

  type byte = x: int | 0 <= x < 256
  type Block = b: seq<byte> | |b| == BSIZE witness seq(BSIZE, _ => 0)

  function Zeroes(): (b: Block)
    ensures forall k :: 0 <= k < BSIZE ==> b[k] == 0
  {
    seq(BSIZE, _ => 0)
  }

  // ---------------------------------------------------------------- words

  /** The i-th word of a block, least significant byte first. */
  function Word(b: Block, i: nat): (w: nat)
    requires i < NINDIRECT
  {
    var b0: int, b1: int, b2: int, b3: int := b[4 * i], b[4 * i + 1], b[4 * i + 2], b[4 * i + 3];
    b0 + 256 * b1 + 65536 * b2 + 16777216 * b3
  }

  /** xint() in mkfs.c, an ordinary store in the kernel. */
  function SetWord(b: Block, i: nat, w: nat): (r: Block)
    requires i < NINDIRECT && w < 0x1_0000_0000
  {
    b[4 * i := w % 256][4 * i + 1 := w / 256 % 256][4 * i + 2 := w / 65536 % 256][4 * i + 3 := w / 16777216]
  }

  lemma WordOfSet(b: Block, i: nat, w: nat, j: nat)
    requires i < NINDIRECT && j < NINDIRECT && w < 0x1_0000_0000
    ensures Word(SetWord(b, i, w), j) == if j == i then w else Word(b, j)
  {
    if i == j {
      WordSplit(w);
    }
  }

  lemma WordSplit(w: nat)
    ensures w % 256 + 256 * (w / 256 % 256) + 65536 * (w / 65536 % 256) + 16777216 * (w / 16777216) == w
  {
    assert w / 256 / 256 == w / 65536;
    assert w / 65536 / 256 == w / 16777216;
  }

  lemma WordOfZeroes(i: nat)
    requires i < NINDIRECT
    ensures Word(Zeroes(), i) == 0
  {
  }

  // ---------------------------------------------------------------- bits

  /** x & (1 << k) */
  predicate Bit(x: nat, k: nat)
    decreases k
  {
    if k == 0 then x % 2 == 1 else Bit(x / 2, k - 1)
  }

  /** x | (1 << k) */
  function BitOn(x: nat, k: nat): (r: nat)
    ensures x <= r
    decreases k
  {
    if k == 0 then x / 2 * 2 + 1 else BitOn(x / 2, k - 1) * 2 + x % 2
  }

  /** x & ~(1 << k) */
  function BitOff(x: nat, k: nat): (r: nat)
    ensures r <= x
    decreases k
  {
    if k == 0 then x / 2 * 2 else BitOff(x / 2, k - 1) * 2 + x % 2
  }

  lemma {:induction false} BitOfOn(x: nat, k: nat, j: nat)
    ensures Bit(BitOn(x, k), j) <==> j == k || Bit(x, j)
    decreases k
  {
    if 0 < k {
      BitOfOn(x / 2, k - 1, if j == 0 then 0 else j - 1);
    }
  }

  lemma {:induction false} BitOfOff(x: nat, k: nat, j: nat)
    ensures Bit(BitOff(x, k), j) <==> j != k && Bit(x, j)
    decreases k
  {
    if 0 < k {
      BitOfOff(x / 2, k - 1, if j == 0 then 0 else j - 1);
    }
  }

  function Pow2(n: nat): (r: nat)
    ensures 0 < r
  {
    if n == 0 then 1 else 2 * Pow2(n - 1)
  }

  lemma {:induction false} BitOnFits(x: nat, k: nat, n: nat)
    requires x < Pow2(n) && k < n
    ensures BitOn(x, k) < Pow2(n)
    decreases k
  {
    if 0 < k {
      BitOnFits(x / 2, k - 1, n - 1);
    }
  }

  lemma ByteOn(x: byte, k: nat)
    requires k < 8
    ensures BitOn(x, k) < 256
  {
    assert Pow2(8) == 256 by {
      assert Pow2(2) == 4;
      assert Pow2(4) == 16;
      assert Pow2(6) == 64;
    }
    BitOnFits(x, k, 8);
  }

  // ---------------------------------------------------------------- the free map

  /** Bit i of a free map block. */
  predicate MapBit(b: Block, i: nat)
    requires i < BPB
  {
    Bit(b[i / 8], i % 8)
  }

  function MapOn(b: Block, i: nat): (r: Block)
    requires i < BPB
    ensures forall j :: 0 <= j < BPB ==> (MapBit(r, j) <==> j == i || MapBit(b, j))
  {
    ByteOn(b[i / 8], i % 8);
    var r: Block := b[i / 8 := BitOn(b[i / 8], i % 8)];
    MapOnBits(b, i, r);
    r
  }

  lemma MapOnBits(b: Block, i: nat, r: Block)
    requires i < BPB && BitOn(b[i / 8], i % 8) < 256 && r == b[i / 8 := BitOn(b[i / 8], i % 8)]
    ensures forall j :: 0 <= j < BPB ==> (MapBit(r, j) <==> j == i || MapBit(b, j))
  {
    forall j | 0 <= j < BPB ensures MapBit(r, j) <==> j == i || MapBit(b, j) {
      if j / 8 == i / 8 {
        BitOfOn(b[i / 8], i % 8, j % 8);
      }
    }
  }

  function MapOff(b: Block, i: nat): (r: Block)
    requires i < BPB
    ensures forall j :: 0 <= j < BPB ==> (MapBit(r, j) <==> j != i && MapBit(b, j))
  {
    var r: Block := b[i / 8 := BitOff(b[i / 8], i % 8)];
    MapOffBits(b, i, r);
    r
  }

  lemma MapOffBits(b: Block, i: nat, r: Block)
    requires i < BPB && r == b[i / 8 := BitOff(b[i / 8], i % 8)]
    ensures forall j :: 0 <= j < BPB ==> (MapBit(r, j) <==> j != i && MapBit(b, j))
  {
    forall j | 0 <= j < BPB ensures MapBit(r, j) <==> j != i && MapBit(b, j) {
      if j / 8 == i / 8 {
        BitOfOff(b[i / 8], i % 8, j % 8);
      }
    }
  }
}
