/**
  How many blocks one operation of filewrite() logs.  file.c cuts a write into pieces
  of CHUNK bytes so that none logs more than MAXOPBLOCKS blocks.  A piece can log one
  more: four data blocks, the inode, two index blocks where the chain grows, and four
  blocks of the free map.
*/
module LogBudget {
  import opened DiskBytes
  import opened FileChain
  import opened FileContents
  import opened FileUpdates
  import opened WriteBudget
  import LogProtocol

  const MAXOPBLOCKS: nat := LogProtocol.MAXOPBLOCKS
  const CHUNK: nat := (MAXOPBLOCKS - 1 - 1 - 2) / 2 * BSIZE

  /** The pieces of filewrite() end where the bytes or a whole number of pieces do. */
  predicate Boundary(i: nat, len: nat) {
    i == len || i % CHUNK == 0
  }

  lemma NextBoundary(i: nat, len: nat, m: nat)
    requires i < len && Boundary(i, len) && m == if len - i <= CHUNK then len - i else CHUNK
    ensures Boundary(i + m, len)
  {
  }

  lemma JoinPieces<T>(s: seq<T>, i: nat, j: nat)
    requires i <= j <= |s|
    ensures s[..i] + s[i..j] == s[..j]
  {
  }

  lemma SubsetSize<T>(a: set<T>, b: set<T>)
    requires a <= b
    ensures |a| <= |b|
  {
    assert b == a + (b - a);
  }

  // ---------------------------------------------------------------- data and index blocks

  ghost function DataRange(n: nat, k0: nat, k: nat): set<Role> {
    set x | k0 <= x < k :: Data(n, x)
  }

  lemma {:induction false} DataRangeSize(n: nat, k0: nat, k: nat)
    requires k0 <= k
    ensures |DataRange(n, k0, k)| == k - k0
  {
    if k0 == k {
      assert DataRange(n, k0, k) == {};
    } else {
      DataRangeSize(n, k0, k - 1);
      assert DataRange(n, k0, k) == DataRange(n, k0, k - 1) + {Data(n, k - 1)};
    }
  }

  /** The index block of the block before k0. */
  function Before(k0: nat): nat {
    if k0 == 0 then 0 else (k0 - 1) / PERINDEX
  }

  ghost function TwoIndexes(n: nat, k0: nat): set<Role> {
    {Index(n, Before(k0)), Index(n, Before(k0) + 1)}
  }

  /** Of four blocks in a row, and the one before them, the chain has two blocks. */
  lemma MapFilesShape(disk: seq<Block>, ino: Inode, n: nat, k0: nat, x: nat)
    requires 0 < |ino.addrs| && k0 <= x < k0 + 4
    ensures MapFiles(disk, ino, n, x) <= {Data(n, x)} + TwoIndexes(n, k0)
  {
    assert x / PERINDEX == Before(k0) || x / PERINDEX == Before(k0) + 1;
    assert x % PERINDEX == 0 && 0 < x ==> x / PERINDEX - 1 == Before(k0);
  }

  lemma {:induction false} FilesShape(disk: seq<Block>, ino: Inode, n: nat, k0: nat, k: nat)
    requires 0 < |ino.addrs| && k0 <= k <= k0 + 4
    ensures DataRange(n, k0, k) <= WriteFiles(disk, ino, n, k0, k) <= DataRange(n, k0, k) + TwoIndexes(n, k0)
  {
    if k0 < k {
      FilesShape(disk, ino, n, k0, k - 1);
      MapFilesShape(disk, ino, n, k0, k - 1);
      assert DataRange(n, k0, k) == DataRange(n, k0, k - 1) + {Data(n, k - 1)};
    }
  }

  lemma FilesBound(disk: seq<Block>, ino: Inode, n: nat, k0: nat, k: nat)
    requires 0 < |ino.addrs| && k0 <= k <= k0 + 4
    ensures |WriteFiles(disk, ino, n, k0, k)| <= k - k0 + 2
    ensures TwoIndexes(n, k0) <= WriteFiles(disk, ino, n, k0, k) ==> |WriteFiles(disk, ino, n, k0, k)| == k - k0 + 2
  {
    FilesShape(disk, ino, n, k0, k);
    DataRangeSize(n, k0, k);
    assert |TwoIndexes(n, k0)| == 2 && DataRange(n, k0, k) !! TwoIndexes(n, k0);
    assert TwoIndexes(n, k0) <= WriteFiles(disk, ino, n, k0, k) ==>
      WriteFiles(disk, ino, n, k0, k) == DataRange(n, k0, k) + TwoIndexes(n, k0);
    SubsetSize(WriteFiles(disk, ino, n, k0, k), DataRange(n, k0, k) + TwoIndexes(n, k0));
  }

  // ---------------------------------------------------------------- counting blocks

  /** Where the block with a role in this file is. */
  function Place(disk: seq<Block>, ino: Inode, r: Role): nat
    requires 0 < |ino.addrs|
  {
    match r
    case Data(_, bn) => BlockAt(disk, ino, bn)
    case Index(_, i) => Walk(disk, ino.addrs[0], i)
    case _ => 0
  }

  ghost function Places(disk: seq<Block>, ino: Inode, files: set<Role>): set<nat>
    requires 0 < |ino.addrs|
  {
    set r | r in files :: Place(disk, ino, r)
  }

  /** The numbers of the blocks that were logged; ib is the block of the inode. */
  ghost function LoggedBlocks(l: Layout, disk: seq<Block>, ino: Inode, files: set<Role>, taken: seq<nat>, updated: bool,
                              ib: nat): set<nat>
    requires 0 < |ino.addrs|
  {
    Places(disk, ino, files) + Shifted(MapBlocks(taken), l.bmapstart) + if updated then {ib} else {}
  }

  ghost function Shifted(a: set<nat>, d: nat): set<nat> {
    set x | x in a :: d + x
  }

  lemma {:induction false} ShiftedSize(a: set<nat>, d: nat)
    ensures |Shifted(a, d)| == |a|
    decreases |a|
  {
    if a == {} {
      assert Shifted(a, d) == {};
    } else {
      var x :| x in a;
      ShiftedSize(a - {x}, d);
      forall y | y in Shifted(a, d) ensures y in Shifted(a - {x}, d) + {d + x} {
        var z :| z in a && y == d + z;
        assert z == x || z in a - {x};
      }
      assert Shifted(a, d) == Shifted(a - {x}, d) + {d + x};
    }
  }

  /** Each of the roles is that of a block of file n. */
  ghost predicate InPlace(disk: seq<Block>, ino: Inode, n: nat, files: set<Role>)
    requires 0 < |ino.addrs|
  {
    forall r :: r in files ==> (r.Data? || r.Index?) && r.inum == n && Place(disk, ino, r) != 0
  }

  lemma PlaceOwned(disk: seq<Block>, inodes: map<nat, Inode>, role: seq<Role>, n: nat, r: Role)
    requires Linked(disk, inodes, role) && n in inodes && (r.Data? || r.Index?) && r.inum == n
    ensures PtrOk(Place(disk, inodes[n], r), role, r)
  {
    if r.Data? {
      BlockOwned(disk, inodes, role, n, r.bn);
    } else {
      WalkOwned(disk, inodes, role, n, r.i);
    }
  }

  /** Blocks with different roles are different blocks. */
  lemma {:induction false} PlacesSize(disk: seq<Block>, inodes: map<nat, Inode>, role: seq<Role>, n: nat,
                                      files: set<Role>)
    requires Linked(disk, inodes, role) && n in inodes && InPlace(disk, inodes[n], n, files)
    ensures |Places(disk, inodes[n], files)| == |files|
    ensures forall b :: b in Places(disk, inodes[n], files) ==> 0 < b < |role| && role[b] in files
    decreases |files|
  {
    if files == {} {
      assert Places(disk, inodes[n], files) == {};
    } else {
      var r :| r in files;
      PlacesSize(disk, inodes, role, n, files - {r});
      PlaceOwned(disk, inodes, role, n, r);
      assert Places(disk, inodes[n], files) == Places(disk, inodes[n], files - {r}) + {Place(disk, inodes[n], r)};
    }
  }

  /** The count is the number of distinct blocks; the inodes lie before the free map. */
  lemma CountIsBlocks(l: Layout, disk: seq<Block>, inodes: map<nat, Inode>, role: seq<Role>, n: nat,
                      files: set<Role>, taken: seq<nat>, updated: bool, ib: nat)
    requires Owned(l, disk, inodes, role) && n in inodes && InPlace(disk, inodes[n], n, files) && ib < l.bmapstart
    requires forall i :: 0 <= i < |taken| ==> taken[i] < l.size
    ensures |LoggedBlocks(l, disk, inodes[n], files, taken, updated, ib)| == LogCount(files, taken, updated)
  {
    var a, b := Places(disk, inodes[n], files), Shifted(MapBlocks(taken), l.bmapstart);
    PlacesSize(disk, inodes, role, n, files);
    ShiftedSize(MapBlocks(taken), l.bmapstart);
    forall x | x in b ensures l.bmapstart <= x < l.nmeta {
      var i :| 0 <= i < |taken| && x == l.bmapstart + taken[i] / BPB;
      assert taken[i] / BPB <= (l.size - 1) / BPB;
    }
    assert a !! b && ib !in a && ib !in b;
  }

  /** All that a write logs is in place when the blocks are mapped. */
  lemma {:induction false} FilesPlaced(d0: seq<Block>, ino0: Inode, d: seq<Block>, ino: Inode, n: nat, k0: nat, k: nat)
    requires 0 < |ino0.addrs| && 0 < |ino.addrs| && k0 <= k
    requires forall x :: k0 <= x < k ==> BlockAt(d, ino, x) != 0
    ensures InPlace(d, ino, n, WriteFiles(d0, ino0, n, k0, k))
  {
    if k0 < k {
      FilesPlaced(d0, ino0, d, ino, n, k0, k - 1);
      MapFilesPlaced(d0, ino0, d, ino, n, k - 1);
    }
  }

  lemma MapFilesPlaced(d0: seq<Block>, ino0: Inode, d: seq<Block>, ino: Inode, n: nat, x: nat)
    requires 0 < |ino0.addrs| && 0 < |ino.addrs| && BlockAt(d, ino, x) != 0
    ensures InPlace(d, ino, n, MapFiles(d0, ino0, n, x) + {Data(n, x)})
  {
    if x % PERINDEX == 0 && 0 < x {
      WalkPrefix(d, ino.addrs[0], x / PERINDEX - 1, x / PERINDEX);
    }
  }

  /** So what writei() counts are blocks. */
  lemma WriteCountsBlocks(l: Layout, d0: seq<Block>, ino0: Inode, role0: seq<Role>, off: nat, len: nat,
                          d: seq<Block>, inodes: map<nat, Inode>, role: seq<Role>, n: nat,
                          files: set<Role>, taken: seq<nat>, updated: bool)
    requires Owned(l, d, inodes, role) && n in inodes && Dense(d, inodes[n]) && off + len <= inodes[n].size
    requires Bill(n, off, len, d0, ino0, role0, role, taken, files)
    ensures forall ib :: 0 <= ib < l.bmapstart ==>
      |LoggedBlocks(l, d, inodes[n], files, taken, updated, ib)| == LogCount(files, taken, updated)
  {
    var k0, k := off / BSIZE, End(off, len);
    forall x | k0 <= x < k ensures BlockAt(d, inodes[n], x) != 0 {
      assert x * BSIZE < off + len;
    }
    FilesPlaced(d0, ino0, d, inodes[n], n, k0, k);
    assert taken[0..] == taken;
    forall ib | 0 <= ib < l.bmapstart
      ensures |LoggedBlocks(l, d, inodes[n], files, taken, updated, ib)| == LogCount(files, taken, updated)
    {
      CountIsBlocks(l, d, inodes, role, n, files, taken, updated, ib);
    }
  }

  // ---------------------------------------------------------------- blocks of the free map

  lemma {:induction false} MapBlocksBound(taken: seq<nat>)
    ensures |MapBlocks(taken)| <= |taken|
    ensures Spread(taken) ==> |MapBlocks(taken)| == |taken|
  {
    if taken != [] {
      var n := |taken| - 1;
      MapBlocksBound(taken[..n]);
      assert MapBlocks(taken) == MapBlocks(taken[..n]) + {taken[n] / BPB};
    }
  }

  /** No two of these blocks have their bits in one block of the free map. */
  ghost predicate Spread(taken: seq<nat>) {
    forall i, j :: 0 <= i < j < |taken| ==> taken[i] / BPB != taken[j] / BPB
  }

  lemma NotSpread(taken: seq<nat>)
    requires !Spread(taken)
    ensures |MapBlocks(taken)| < |taken|
  {
    var i, j :| 0 <= i < j < |taken| && taken[i] / BPB == taken[j] / BPB;
    var rest := taken[..j] + taken[j + 1..];
    MapBlocksBound(rest);
    forall x | x in MapBlocks(taken) ensures x in MapBlocks(rest) {
      var k :| 0 <= k < |taken| && taken[k] / BPB == x;
      assert rest[i] == taken[i];
      assert k < j ==> rest[k] == taken[k];
      assert j < k ==> rest[k - 1] == taken[k];
    }
    SubsetSize(MapBlocks(taken), MapBlocks(rest));
  }

  /** The next four free blocks have their bits in four blocks of the free map. */
  ghost predicate Scattered(role: seq<Role>) {
    exists f :: |f| == 4 && FirstFree(role, f) && Spread(f)
  }

  lemma ScatteredFree(role: seq<Role>)
    requires Scattered(role)
    ensures 4 <= |FreeBlocks(role)|
  {
    var f :| |f| == 4 && FirstFree(role, f) && Spread(f);
    IncreasingSize(f);
    SubsetSize(Members(f), FreeBlocks(role));
  }

  lemma {:induction false} FirstFreeUnique(role: seq<Role>, f: seq<nat>, g: seq<nat>, i: nat)
    requires FirstFree(role, f) && FirstFree(role, g) && i <= |f| == |g|
    ensures f[..i] == g[..i]
  {
    if 0 < i {
      FirstFreeUnique(role, f, g, i - 1);
      var a, b := f[i - 1], g[i - 1];
      assert forall j :: 0 <= j < i - 1 ==> f[..i - 1][j] == f[j] && g[..i - 1][j] == g[j];
      assert a < b ==> a in g;
      assert b < a ==> b in f;
    }
  }

  lemma TakenSpread(role0: seq<Role>, taken: seq<nat>)
    requires FirstFree(role0, taken) && |taken| == 4
    ensures Spread(taken) <==> Scattered(role0)
  {
    if f :| |f| == 4 && FirstFree(role0, f) && Spread(f) {
      FirstFreeUnique(role0, f, taken, 4);
      assert f[..4] == f && taken[..4] == taken;
    }
  }

  // ---------------------------------------------------------------- blocks taken

  lemma TakesOf(disk: seq<Block>, ino: Inode, k: nat)
    requires 0 < |ino.addrs|
    ensures WriteTakes(disk, ino, k, k) == 0
    ensures WriteTakes(disk, ino, k, k + 1) == MapTakes(disk, ino, k)
    ensures WriteTakes(disk, ino, k, k + 2) == WriteTakes(disk, ino, k, k + 1) + MapTakes(disk, ino, k + 1)
    ensures WriteTakes(disk, ino, k, k + 3) == WriteTakes(disk, ino, k, k + 2) + MapTakes(disk, ino, k + 2)
    ensures WriteTakes(disk, ino, k, k + 4) == WriteTakes(disk, ino, k, k + 3) + MapTakes(disk, ino, k + 3)
  {
  }

  lemma ShortTakes(disk: seq<Block>, ino: Inode, k0: nat, k: nat)
    requires 0 < |ino.addrs| && k0 <= k <= k0 + 3
    ensures WriteTakes(disk, ino, k0, k) <= 4
  {
    TakesOf(disk, ino, k0);
    OneLink(k0);
  }

  lemma OneLink(k0: nat)
    ensures forall x, y :: k0 <= x < y < k0 + 4 ==> x % PERINDEX != 0 || y % PERINDEX != 0
  {
  }

  /** The blocks behind k0 are missing, and the last of them needs an index block that
      is missing too. */
  predicate Extends(disk: seq<Block>, ino: Inode, k0: nat)
    requires 0 < |ino.addrs|
  {
    && BlockAt(disk, ino, k0 + 1) == 0 && BlockAt(disk, ino, k0 + 2) == 0 && BlockAt(disk, ino, k0 + 3) == 0
    && Walk(disk, ino.addrs[0], (k0 + 3) / PERINDEX) == 0
  }

  lemma LinkPlace(disk: seq<Block>, ino: Inode, k0: nat) returns (x: nat)
    requires 0 < |ino.addrs| && BlockAt(disk, ino, k0) != 0 && Walk(disk, ino.addrs[0], (k0 + 3) / PERINDEX) == 0
    ensures k0 < x <= k0 + 3 && NeedsLink(disk, ino, x) && k0 % PERINDEX != 0
    ensures x / PERINDEX == Before(k0) + 1
  {
    x := (k0 + 3) / PERINDEX * PERINDEX;
    assert k0 / PERINDEX != (k0 + 3) / PERINDEX;
  }

  lemma LongTakes(disk: seq<Block>, ino: Inode, k0: nat)
    requires 0 < |ino.addrs| && BlockAt(disk, ino, k0) != 0
    ensures WriteTakes(disk, ino, k0, k0 + 4) <= 4
    ensures WriteTakes(disk, ino, k0, k0 + 4) == 4 <==> Extends(disk, ino, k0)
  {
    TakesOf(disk, ino, k0);
    OneLink(k0);
    if Walk(disk, ino.addrs[0], (k0 + 3) / PERINDEX) == 0 {
      var x := LinkPlace(disk, ino, k0);
    } else {
      NoLink(disk, ino, k0);
    }
  }

  lemma NoLink(disk: seq<Block>, ino: Inode, k0: nat)
    requires 0 < |ino.addrs| && Walk(disk, ino.addrs[0], (k0 + 3) / PERINDEX) != 0
    ensures forall x :: k0 < x <= k0 + 3 ==> !NeedsLink(disk, ino, x)
  {
    forall x | k0 < x <= k0 + 3 && x % PERINDEX == 0 ensures x / PERINDEX == (k0 + 3) / PERINDEX {
    }
  }

  lemma ExtendsFiles(disk: seq<Block>, ino: Inode, n: nat, k0: nat)
    requires 0 < |ino.addrs| && BlockAt(disk, ino, k0) != 0 && Extends(disk, ino, k0)
    ensures TwoIndexes(n, k0) <= WriteFiles(disk, ino, n, k0, k0 + 4)
  {
    var x := LinkPlace(disk, ino, k0);
    assert TwoIndexes(n, k0) <= MapFiles(disk, ino, n, x);
    FilesOf(disk, ino, n, k0, x);
  }

  lemma FilesOf(disk: seq<Block>, ino: Inode, n: nat, k0: nat, x: nat)
    requires 0 < |ino.addrs| && k0 <= x < k0 + 4
    ensures MapFiles(disk, ino, n, x) <= WriteFiles(disk, ino, n, k0, k0 + 4)
  {
    var f1, f2 := WriteFiles(disk, ino, n, k0, k0 + 1), WriteFiles(disk, ino, n, k0, k0 + 2);
    assert f1 <= f2 <= WriteFiles(disk, ino, n, k0, k0 + 3) <= WriteFiles(disk, ino, n, k0, k0 + 4);
  }

  // ---------------------------------------------------------------- the bound

  /** A write of len bytes at off that logs too much: it begins inside a mapped block
      and goes on into three that are missing, the chain must grow for them, and the
      four blocks that it takes are marked in four blocks of the free map. */
  ghost predicate Overdraws(disk: seq<Block>, ino: Inode, role: seq<Role>, off: nat, len: nat)
    requires 0 < |ino.addrs|
  {
    End(off, len) == off / BSIZE + 4 && Extends(disk, ino, off / BSIZE) && Scattered(role)
  }

  /** A piece touches at most four blocks, and four only if it begins inside one, which
      is mapped then. */
  lemma PieceSpan(disk: seq<Block>, ino: Inode, off: nat, len: nat)
    requires Dense(disk, ino) && off <= ino.size && len <= CHUNK
    ensures off / BSIZE <= End(off, len) <= off / BSIZE + 4
    ensures End(off, len) == off / BSIZE + 4 ==> BlockAt(disk, ino, off / BSIZE) != 0
    ensures End(off, len) == off / BSIZE + 4 && BlockAt(disk, ino, off / BSIZE + 1) == 0 ==> ino.size < off + len
  {
    if End(off, len) == off / BSIZE + 4 {
      assert off / BSIZE * BSIZE < off;
      assert (off / BSIZE + 1) * BSIZE < off + len;
    }
  }

  /** A piece of a write logs at most MAXOPBLOCKS blocks, as filewrite() relies on, if
      and only if it does not overdraw; otherwise it logs one more. */
  lemma PieceLogs(d0: seq<Block>, ino0: Inode, role0: seq<Role>, n: nat, off: nat, len: nat,
                  role: seq<Role>, taken: seq<nat>, files: set<Role>, updated: bool)
    requires Dense(d0, ino0) && off <= ino0.size && len <= CHUNK
    requires Bill(n, off, len, d0, ino0, role0, role, taken, files) && (updated <==> ino0.size < off + len)
    ensures LogCount(files, taken, updated) <= MAXOPBLOCKS + 1
    ensures LogCount(files, taken, updated) <= MAXOPBLOCKS <==> !Overdraws(d0, ino0, role0, off, len)
  {
    var k0, k := off / BSIZE, End(off, len);
    PieceSpan(d0, ino0, off, len);
    FilesBound(d0, ino0, n, k0, k);
    MapBlocksBound(taken);
    if k < k0 + 4 {
      ShortTakes(d0, ino0, k0, k);
    } else {
      assert taken[0..] == taken;
      FourBlocks(d0, ino0, role0, n, k0, taken);
    }
  }

  /** Writing four blocks, the first of which is mapped. */
  lemma FourBlocks(d0: seq<Block>, ino0: Inode, role0: seq<Role>, n: nat, k0: nat, taken: seq<nat>)
    requires 0 < |ino0.addrs| && BlockAt(d0, ino0, k0) != 0 && FirstFree(role0, taken)
    requires |taken| == WriteTakes(d0, ino0, k0, k0 + 4)
    ensures |WriteFiles(d0, ino0, n, k0, k0 + 4)| <= 6 && |MapBlocks(taken)| <= 4
    ensures Extends(d0, ino0, k0) && Scattered(role0) ==>
      |WriteFiles(d0, ino0, n, k0, k0 + 4)| == 6 && |MapBlocks(taken)| == 4
    ensures !(Extends(d0, ino0, k0) && Scattered(role0)) ==> |MapBlocks(taken)| <= 3
  {
    FilesBound(d0, ino0, n, k0, k0 + 4);
    MapBlocksBound(taken);
    LongTakes(d0, ino0, k0);
    if Extends(d0, ino0, k0) {
      ExtendsFiles(d0, ino0, n, k0);
      TakenSpread(role0, taken);
      if !Spread(taken) {
        NotSpread(taken);
      }
    }
  }

  // ---------------------------------------------------------------- directory entries

  const DIRENT: nat := 16

  /** Writing a directory entry logs at most six blocks: the entry's, two index blocks,
      two of the free map, and the inode's.  With the block of the other inode, link()
      and create() of a file log at most seven. */
  lemma EntryLogs(d0: seq<Block>, ino0: Inode, role0: seq<Role>, n: nat, off: nat,
                  role: seq<Role>, taken: seq<nat>, files: set<Role>, updated: bool)
    requires Bill(n, off, DIRENT, d0, ino0, role0, role, taken, files) && off % DIRENT == 0
    ensures |files| <= 3 && |taken| <= 2 && LogCount(files, taken, updated) <= 6
  {
    assert End(off, DIRENT) == off / BSIZE + 1;
    FilesBound(d0, ino0, n, off / BSIZE, off / BSIZE + 1);
    TakesOf(d0, ino0, off / BSIZE);
    MapBlocksBound(taken);
  }

  /** Overwriting an entry, as unlink() does, logs its block and nothing else. */
  lemma EntryRewrites(d0: seq<Block>, ino0: Inode, role0: seq<Role>, n: nat, off: nat,
                      role: seq<Role>, taken: seq<nat>, files: set<Role>, updated: bool)
    requires Bill(n, off, DIRENT, d0, ino0, role0, role, taken, files) && off % DIRENT == 0
    requires Dense(d0, ino0) && off + DIRENT <= ino0.size && (updated <==> ino0.size < off + DIRENT)
    ensures files == {Data(n, off / BSIZE)} && taken == [] && LogCount(files, taken, updated) == 1
  {
    assert End(off, DIRENT) == off / BSIZE + 1 && off / BSIZE * BSIZE < ino0.size;
    TakesOf(d0, ino0, off / BSIZE);
    assert WriteFiles(d0, ino0, n, off / BSIZE, off / BSIZE + 1) == {Data(n, off / BSIZE)};
    assert MapBlocks(taken) == {};
  }

  /** The two dots of a new directory ip: its first block and its head index block. */
  lemma DotsLog(d0: seq<Block>, ino0: Inode, role0: seq<Role>, ip: nat, role: seq<Role>, taken: seq<nat>,
                files: set<Role>)
    requires Bill(ip, 0, DIRENT, d0, ino0, role0, role, taken, files) && BlockAt(d0, ino0, 0) == 0
    ensures files == {Data(ip, 0), Index(ip, 0)} && |taken| <= 2
  {
    TakesOf(d0, ino0, 0);
    assert WriteFiles(d0, ino0, ip, 0, 1) == {Data(ip, 0), Index(ip, 0)};
  }

  /** create() of a directory writes three entries, "." and ".." in the new directory ip
      and its name in dp, and logs two blocks of inodes: MAXOPBLOCKS + 1 at most. */
  lemma MkdirLogs(d0: seq<Block>, ino0: Inode, role0: seq<Role>, ip: nat,
                  role1: seq<Role>, taken1: seq<nat>, files1: set<Role>,
                  d1: seq<Block>, ino1: Inode, role2: seq<Role>, taken2: seq<nat>, files2: set<Role>,
                  d2: seq<Block>, ino2: Inode, dp: nat, off: nat, role: seq<Role>, taken: seq<nat>, files: set<Role>)
    requires Bill(ip, 0, DIRENT, d0, ino0, role0, role1, taken1, files1) && BlockAt(d0, ino0, 0) == 0
    requires Bill(ip, DIRENT, DIRENT, d1, ino1, role1, role2, taken2, files2) && BlockAt(d1, ino1, 0) != 0
    requires Bill(dp, off, DIRENT, d2, ino2, role2, role, taken, files) && off % DIRENT == 0
    ensures |files1 + files2 + files| + |MapBlocks(taken1 + taken2 + taken)| + 2 <= MAXOPBLOCKS + 1
  {
    DotsLog(d0, ino0, role0, ip, role1, taken1, files1);
    TakesOf(d1, ino1, 0);
    assert WriteFiles(d1, ino1, ip, 0, 1) == {Data(ip, 0)};
    EntryLogs(d2, ino2, role2, dp, off, role, taken, files, true);
    MapBlocksBound(taken1 + taken2 + taken);
    assert files1 + files2 + files == files1 + (files - files1);
    SubsetSize(files - files1, files);
  }
}
