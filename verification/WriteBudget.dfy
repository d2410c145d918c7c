/**
  What writei() takes from the free map and gives to log_write(), as a function of
  the disk before the call.
*/
module WriteBudget {
  import opened DiskBytes
  import opened FileChain
  import opened FileContents
  import opened FileUpdates

  // ---------------------------------------------------------------- what balloc() takes

  ghost predicate Increasing(f: seq<nat>) {
    forall i, j :: 0 <= i < j < |f| ==> f[i] < f[j]
  }

  /** The first |f| free blocks. */
  ghost predicate FirstFree(role: seq<Role>, f: seq<nat>) {
    && Increasing(f)
    && (forall i :: 0 <= i < |f| ==> f[i] < |role| && role[f[i]] == Free)
    && (forall b, i :: 0 <= i < |f| && 0 <= b < f[i] && b < |role| && role[b] == Free ==> b in f)
  }

  /** They have been taken. */
  ghost predicate Allocates(role0: seq<Role>, role: seq<Role>, f: seq<nat>) {
    && |role| == |role0| && FirstFree(role0, f)
    && (forall b :: 0 <= b < |role| ==> (role[b] == Free <==> role0[b] == Free && b !in f))
  }

  /** Since the roles were role0, balloc() has gone on from taken0 to taken. */
  ghost predicate Took(role0: seq<Role>, taken0: seq<nat>, role: seq<Role>, taken: seq<nat>) {
    taken0 <= taken && Allocates(role0, role, taken[|taken0|..])
  }

  lemma TookNone(role: seq<Role>, taken: seq<nat>)
    ensures Took(role, taken, role, taken)
  {
  }

  lemma TookOne(role0: seq<Role>, taken0: seq<nat>, role: seq<Role>, taken: seq<nat>, b: nat, use: Role)
    requires b < |role0| && role0[b] == Free && use != Free && role == role0[b := use] && taken == taken0 + [b]
    requires forall x :: 0 <= x < b ==> role0[x] != Free
    ensures Took(role0, taken0, role, taken)
  {
    assert taken[|taken0|..] == [b];
  }

  lemma AllocatesTrans(role0: seq<Role>, role1: seq<Role>, role2: seq<Role>, f: seq<nat>, g: seq<nat>)
    requires Allocates(role0, role1, f) && Allocates(role1, role2, g)
    ensures Allocates(role0, role2, f + g)
  {
    var h := f + g;
    forall i, j | 0 <= i < |f| && 0 <= j < |g| ensures f[i] < g[j] {
      assert role1[g[j]] == Free && role1[f[i]] != Free;
    }
    forall b, i | 0 <= i < |h| && 0 <= b < h[i] && b < |role0| && role0[b] == Free ensures b in h {
      if |f| <= i && b !in f {
        assert h[i] == g[i - |f|] && role1[b] == Free;
      }
    }
  }

  lemma TookTrans(role0: seq<Role>, taken0: seq<nat>, role1: seq<Role>, taken1: seq<nat>, role2: seq<Role>,
                  taken2: seq<nat>)
    requires Took(role0, taken0, role1, taken1) && Took(role1, taken1, role2, taken2)
    ensures Took(role0, taken0, role2, taken2)
  {
    AllocatesTrans(role0, role1, role2, taken1[|taken0|..], taken2[|taken1|..]);
    assert taken2[|taken0|..] == taken1[|taken0|..] + taken2[|taken1|..];
  }

  ghost function FreeBlocks(role: seq<Role>): set<nat> {
    set b | 0 <= b < |role| && role[b] == Free
  }

  lemma {:induction false} IncreasingSize(f: seq<nat>)
    requires Increasing(f)
    ensures |Members(f)| == |f|
  {
    if f != [] {
      var n := |f| - 1;
      IncreasingSize(f[..n]);
      assert Members(f) == Members(f[..n]) + {f[n]};
    }
  }

  ghost function Members(f: seq<nat>): set<nat> {
    set b | b in f
  }

  /** balloc() takes no more than was free, and all of it when nothing is left. */
  lemma TakenFree(role0: seq<Role>, role: seq<Role>, taken: seq<nat>)
    requires Took(role0, [], role, taken)
    ensures |taken| <= |FreeBlocks(role0)|
    ensures (forall b :: 0 <= b < |role| ==> role[b] != Free) ==> |taken| == |FreeBlocks(role0)|
  {
    assert taken[0..] == taken;
    IncreasingSize(taken);
    assert Members(taken) <= FreeBlocks(role0);
    assert FreeBlocks(role0) == Members(taken) + (FreeBlocks(role0) - Members(taken));
    if forall b :: 0 <= b < |role| ==> role[b] != Free {
      assert FreeBlocks(role0) - Members(taken) == {};
    }
  }

  // ---------------------------------------------------------------- what a write logs

  /** Index block q is missing, and block x is the first that needs it. */
  predicate NeedsLink(disk: seq<Block>, ino: Inode, x: nat)
    requires 0 < |ino.addrs|
  {
    x % PERINDEX == 0 && Walk(disk, ino.addrs[0], x / PERINDEX) == 0
  }

  /** The file blocks that bmap() logs for block x of file n, */
  function MapFiles(disk: seq<Block>, ino: Inode, n: nat, x: nat): set<Role>
    requires 0 < |ino.addrs|
  {
    if BlockAt(disk, ino, x) != 0 then {}
    else {Data(n, x), Index(n, x / PERINDEX)} +
         (if NeedsLink(disk, ino, x) && 0 < x then {Index(n, x / PERINDEX - 1)} else {})
  }

  /** and the number of blocks that it takes. */
  function MapTakes(disk: seq<Block>, ino: Inode, x: nat): nat
    requires 0 < |ino.addrs|
  {
    if BlockAt(disk, ino, x) != 0 then 0 else if NeedsLink(disk, ino, x) then 2 else 1
  }

  /** Index block q is the first that the chain lacks. */
  ghost predicate Ends(disk: seq<Block>, a: nat, q: nat) {
    Walk(disk, a, q) == 0 && (q == 0 || Walk(disk, a, q - 1) != 0)
  }

  /** What it took to get to the i-th index block: nothing if it was there, and one
      block if the chain ended before it, which got the link. */
  ghost predicate Path(n: nat, i: nat, d0: seq<Block>, a0: nat, role0: seq<Role>, taken0: seq<nat>, files0: set<Role>,
                       d: seq<Block>, a: nat, role: seq<Role>, taken: seq<nat>, files: set<Role>) {
    && Took(role0, taken0, role, taken) && Beyond(d0, a0, d, a, i)
    && (Walk(d0, a0, i) != 0 ==> d == d0 && role == role0 && taken == taken0 && files == files0)
    && (Ends(d0, a0, i) ==>
          |taken| == |taken0| + 1 && files == files0 + {Index(n, i)} + (if i == 0 then {} else {Index(n, i - 1)}))
  }

  /** The i-th index block of file n is x; nothing but index blocks of that file was
      added since the disk was d0. */
  ghost predicate Reached(l: Layout, n: nat, i: nat, x: nat, d0: seq<Block>, ins0: map<nat, Inode>, role0: seq<Role>,
                          taken0: seq<nat>, files0: set<Role>,
                          d: seq<Block>, ins: map<nat, Inode>, role: seq<Role>, taken: seq<nat>, files: set<Role>) {
    && Owned(l, d, ins, role) && Grown(d0, role0, d, role)
    && n in ins && n in ins0 && ins == ins0[n := ins[n]] && ins[n].size == ins0[n].size
    && SameMaps(d0, ins0, d, ins)
    && 0 < x < l.size && Walk(d, ins[n].addrs[0], i) == x
    && Path(n, i, d0, ins0[n].addrs[0], role0, taken0, files0, d, ins[n].addrs[0], role, taken, files)
    && (Walk(d0, ins0[n].addrs[0], i) != 0 ==> ins == ins0)
  }

  /** Behind a mapped block the chain lacks its index block only at the first entry. */
  lemma BehindMapped(disk: seq<Block>, ino: Inode, bn: nat)
    requires 0 < |ino.addrs| && (bn == 0 || BlockAt(disk, ino, bn - 1) != 0)
    ensures Walk(disk, ino.addrs[0], bn / PERINDEX) == 0 ==>
      bn % PERINDEX == 0 && Ends(disk, ino.addrs[0], bn / PERINDEX) && BlockAt(disk, ino, bn) == 0
  {
    if 0 < bn && bn % PERINDEX == 0 {
      assert (bn - 1) / PERINDEX == bn / PERINDEX - 1;
    } else if 0 < bn {
      assert (bn - 1) / PERINDEX == bn / PERINDEX;
    }
  }

  lemma PathNext(n: nat, i: nat, d0: seq<Block>, a0: nat, role0: seq<Role>, taken0: seq<nat>, files0: set<Role>,
                 d1: seq<Block>, a: nat, role1: seq<Role>, taken1: seq<nat>, files1: set<Role>,
                 d: seq<Block>, role: seq<Role>, taken: seq<nat>, files: set<Role>)
    requires Path(n, i, d0, a0, role0, taken0, files0, d1, a, role1, taken1, files1)
    requires Took(role1, taken1, role, taken) && Beyond(d1, a, d, a, i + 1)
    requires Walk(d0, a0, i + 1) != 0 ==> Walk(d0, a0, i) != 0
    requires Walk(d1, a, i + 1) != 0 ==> d == d1 && role == role1 && taken == taken1 && files == files1
    requires Walk(d1, a, i + 1) == 0 ==>
      |taken| == |taken1| + 1 && files == files1 + {Index(n, i + 1), Index(n, i)}
    ensures Path(n, i + 1, d0, a0, role0, taken0, files0, d, a, role, taken, files)
  {
    TookTrans(role0, taken0, role1, taken1, role, taken);
    BeyondTrans(d0, a0, d1, a, d, a, i, i + 1);
    assert Walk(d1, a, i + 1) == Walk(d0, a0, i + 1);
  }

  /** A chain that lacks index block i does not end at a later one. */
  lemma ChainStops(disk: seq<Block>, a: nat, i: nat, q: nat)
    requires i <= q && Walk(disk, a, i) == 0
    ensures Walk(disk, a, q) == 0 && (i < q ==> !Ends(disk, a, q))
  {
    WalkPrefix(disk, a, i, q);
    if i < q {
      WalkPrefix(disk, a, i, q - 1);
    }
  }

  /** There was less than bmap() needs for block bn. */
  ghost predicate Lacks(bn: nat, d0: seq<Block>, ino0: Inode, taken0: seq<nat>, taken: seq<nat>)
    requires 0 < |ino0.addrs|
  {
    bn == 0 || BlockAt(d0, ino0, bn - 1) != 0 ==> |taken| < |taken0| + MapTakes(d0, ino0, bn)
  }

  lemma IndexLacks(d0: seq<Block>, ino0: Inode, bn: nat, taken0: seq<nat>, taken: seq<nat>)
    requires 0 < |ino0.addrs| && Walk(d0, ino0.addrs[0], bn / PERINDEX) == 0
    requires Ends(d0, ino0.addrs[0], bn / PERINDEX) ==> taken == taken0
    ensures Lacks(bn, d0, ino0, taken0, taken)
  {
    if bn == 0 || BlockAt(d0, ino0, bn - 1) != 0 {
      BehindMapped(d0, ino0, bn);
    }
  }

  lemma DataLacks(n: nat, bn: nat, d0: seq<Block>, ino0: Inode, role0: seq<Role>, taken0: seq<nat>, files0: set<Role>,
                  d1: seq<Block>, a: nat, role1: seq<Role>, taken1: seq<nat>, files1: set<Role>)
    requires 0 < |ino0.addrs| && BlockAt(d0, ino0, bn) == 0
    requires Path(n, bn / PERINDEX, d0, ino0.addrs[0], role0, taken0, files0, d1, a, role1, taken1, files1)
    ensures Lacks(bn, d0, ino0, taken0, taken1)
  {
    if bn == 0 || BlockAt(d0, ino0, bn - 1) != 0 {
      BehindMapped(d0, ino0, bn);
    }
  }

  lemma ReachedNext(l: Layout, n: nat, i: nat, x: nat, y: nat, d0: seq<Block>, ins0: map<nat, Inode>,
                    role0: seq<Role>, taken0: seq<nat>, files0: set<Role>,
                    d1: seq<Block>, role1: seq<Role>, taken1: seq<nat>, files1: set<Role>,
                    d: seq<Block>, ins: map<nat, Inode>, role: seq<Role>, taken: seq<nat>, files: set<Role>)
    requires Reached(l, n, i, x, d0, ins0, role0, taken0, files0, d1, ins, role1, taken1, files1)
    requires Owned(l, d, ins, role) && Grown(d1, role1, d, role) && SameMaps(d1, ins, d, ins)
    requires 0 < y < l.size && Walk(d, ins[n].addrs[0], i + 1) == y
    requires Took(role1, taken1, role, taken) && Beyond(d1, ins[n].addrs[0], d, ins[n].addrs[0], i + 1)
    requires Walk(d1, ins[n].addrs[0], i + 1) != 0 ==> d == d1 && role == role1 && taken == taken1 && files == files1
    requires Walk(d1, ins[n].addrs[0], i + 1) == 0 ==>
      |taken| == |taken1| + 1 && files == files1 + {Index(n, i + 1), Index(n, i)}
    ensures Reached(l, n, i + 1, y, d0, ins0, role0, taken0, files0, d, ins, role, taken, files)
  {
    var a0, a := ins0[n].addrs[0], ins[n].addrs[0];
    WalkPrefix(d0, a0, i, i + 1);
    PathNext(n, i, d0, a0, role0, taken0, files0, d1, a, role1, taken1, files1, d, role, taken, files);
    GrownTrans(d0, role0, d1, role1, d, role);
    SameMapsTrans(d0, ins0, d1, ins, d, ins);
  }

  /** There is no block for the next one. */
  lemma ReachedLast(l: Layout, n: nat, i: nat, x: nat, q: nat, d0: seq<Block>, ins0: map<nat, Inode>,
                    role0: seq<Role>, taken0: seq<nat>, files0: set<Role>,
                    d1: seq<Block>, ins: map<nat, Inode>, role1: seq<Role>, taken1: seq<nat>, files1: set<Role>,
                    role: seq<Role>, taken: seq<nat>)
    requires Reached(l, n, i, x, d0, ins0, role0, taken0, files0, d1, ins, role1, taken1, files1)
    requires Walk(d1, ins[n].addrs[0], i + 1) == 0 && i < q && Took(role1, taken1, role, taken) && taken == taken1
    ensures Took(role0, taken0, role, taken) && Walk(d0, ins0[n].addrs[0], q) == 0
    ensures Ends(d0, ins0[n].addrs[0], q) ==> taken == taken0
  {
    TookTrans(role0, taken0, role1, taken1, role, taken);
    ChainStops(d0, ins0[n].addrs[0], i + 1, q);
  }

  /** What it took to enter block bn in its index block. */
  ghost predicate Entered(n: nat, bn: nat, d1: seq<Block>, ino: Inode, role1: seq<Role>, taken1: seq<nat>,
                          files1: set<Role>, d: seq<Block>, role: seq<Role>, taken: seq<nat>, files: set<Role>)
    requires 0 < |ino.addrs|
  {
    && Took(role1, taken1, role, taken) && Beyond(d1, ino.addrs[0], d, ino.addrs[0], bn / PERINDEX)
    && (BlockAt(d1, ino, bn) != 0 ==> taken == taken1 && files == files1)
    && (BlockAt(d1, ino, bn) == 0 ==>
          |taken| == |taken1| + 1 && files == files1 + {Data(n, bn), Index(n, bn / PERINDEX)})
  }

  /** What bmap() took and logged for block bn; how much is known behind a mapped block. */
  ghost predicate Charged(n: nat, bn: nat, d0: seq<Block>, ino0: Inode, role0: seq<Role>, taken0: seq<nat>,
                          files0: set<Role>,
                          d: seq<Block>, ino: Inode, role: seq<Role>, taken: seq<nat>, files: set<Role>)
    requires 0 < |ino0.addrs| && 0 < |ino.addrs|
  {
    && Took(role0, taken0, role, taken) && Beyond(d0, ino0.addrs[0], d, ino.addrs[0], bn / PERINDEX)
    && (bn == 0 || BlockAt(d0, ino0, bn - 1) != 0 ==>
          && |taken| == |taken0| + MapTakes(d0, ino0, bn)
          && files == files0 + MapFiles(d0, ino0, n, bn))
  }

  lemma PathCharged(n: nat, bn: nat, d0: seq<Block>, ino0: Inode, role0: seq<Role>, taken0: seq<nat>, files0: set<Role>,
                    d1: seq<Block>, ino: Inode, role1: seq<Role>, taken1: seq<nat>, files1: set<Role>,
                    d: seq<Block>, role: seq<Role>, taken: seq<nat>, files: set<Role>)
    requires 0 < |ino0.addrs| && 0 < |ino.addrs| && BlockAt(d1, ino, bn) == BlockAt(d0, ino0, bn)
    requires Path(n, bn / PERINDEX, d0, ino0.addrs[0], role0, taken0, files0, d1, ino.addrs[0], role1, taken1, files1)
    requires Entered(n, bn, d1, ino, role1, taken1, files1, d, role, taken, files)
    ensures Charged(n, bn, d0, ino0, role0, taken0, files0, d, ino, role, taken, files)
  {
    TookTrans(role0, taken0, role1, taken1, role, taken);
    BeyondTrans(d0, ino0.addrs[0], d1, ino.addrs[0], d, ino.addrs[0], bn / PERINDEX, bn / PERINDEX);
    if bn == 0 || BlockAt(d0, ino0, bn - 1) != 0 {
      BehindMapped(d0, ino0, bn);
    }
  }

  /** The same for the blocks from k0 to k, each of which is written. */
  function WriteFiles(disk: seq<Block>, ino: Inode, n: nat, k0: nat, k: nat): set<Role>
    requires 0 < |ino.addrs| && k0 <= k
  {
    if k == k0 then {} else WriteFiles(disk, ino, n, k0, k - 1) + MapFiles(disk, ino, n, k - 1) + {Data(n, k - 1)}
  }

  function WriteTakes(disk: seq<Block>, ino: Inode, k0: nat, k: nat): nat
    requires 0 < |ino.addrs| && k0 <= k
  {
    if k == k0 then 0 else WriteTakes(disk, ino, k0, k - 1) + MapTakes(disk, ino, k - 1)
  }

  lemma {:induction false} TakesGrow(disk: seq<Block>, ino: Inode, k0: nat, k: nat, k': nat)
    requires 0 < |ino.addrs| && k0 <= k <= k'
    ensures WriteTakes(disk, ino, k0, k) <= WriteTakes(disk, ino, k0, k')
    decreases k'
  {
    if k < k' {
      TakesGrow(disk, ino, k0, k, k' - 1);
    }
  }

  /** The block behind the last one that len bytes at off touch. */
  function End(off: nat, len: nat): nat {
    if len == 0 then off / BSIZE else (off + len - 1) / BSIZE + 1
  }

  /** The first tot of len bytes at off touch the blocks before k; the rest begins at
      block k. */
  predicate Upto(off: nat, tot: nat, len: nat, k: nat) {
    k == End(off, tot) && (tot < len ==> (off + tot) / BSIZE == k)
  }

  lemma UptoNext(off0: nat, tot: nat, len: nat, k: nat, off: nat, m: nat)
    requires Upto(off0, tot, len, k) && tot < len && off == off0 + tot && 0 < m <= len - tot
    requires m == BSIZE - off % BSIZE || (m == len - tot && m < BSIZE - off % BSIZE)
    ensures k == off / BSIZE && Upto(off0, tot + m, len, k + 1) && k < End(off0, len)
  {
  }

  lemma UptoEnd(off0: nat, tot: nat, len: nat, k: nat)
    requires Upto(off0, tot, len, k) && tot == len
    ensures k == End(off0, len)
  {
  }

  lemma PrevMapped(disk: seq<Block>, ino: Inode, sz: nat, off: nat, k: nat)
    requires 0 < |ino.addrs| && Dense(disk, ino.(size := sz)) && off <= sz && k == off / BSIZE
    ensures k == 0 || BlockAt(disk, ino, k - 1) != 0
  {
    if 0 < k {
      SizeFree(disk, ino, sz, k - 1);
    }
  }

  /** What writing len bytes at off has taken, and the file blocks that it logged. */
  ghost predicate Bill(n: nat, off: nat, len: nat, d0: seq<Block>, ino0: Inode, role0: seq<Role>, role: seq<Role>,
                       taken: seq<nat>, files: set<Role>) {
    && 0 < |ino0.addrs| && off / BSIZE <= End(off, len) && Took(role0, [], role, taken)
    && |taken| == WriteTakes(d0, ino0, off / BSIZE, End(off, len))
    && files == WriteFiles(d0, ino0, n, off / BSIZE, End(off, len))
  }

  /** What it took to write block bn: what bmap() took, and the block itself. */
  ghost predicate Spent(n: nat, bn: nat, d0: seq<Block>, ino0: Inode, role0: seq<Role>, taken0: seq<nat>,
                        files0: set<Role>,
                        d: seq<Block>, ino: Inode, role: seq<Role>, taken: seq<nat>, files: set<Role>) {
    && 0 < |ino0.addrs| && 0 < |ino.addrs|
    && Took(role0, taken0, role, taken) && Beyond(d0, ino0.addrs[0], d, ino.addrs[0], bn / PERINDEX)
    && (forall y :: bn < y ==> BlockAt(d, ino, y) == BlockAt(d0, ino0, y))
    && (bn == 0 || BlockAt(d0, ino0, bn - 1) != 0 ==>
          && |taken| == |taken0| + MapTakes(d0, ino0, bn)
          && files == files0 + MapFiles(d0, ino0, n, bn) + {Data(n, bn)})
  }

  lemma ChargedSpent(n: nat, bn: nat, d0: seq<Block>, ins0: map<nat, Inode>, role0: seq<Role>, taken0: seq<nat>,
                     files0: set<Role>, d1: seq<Block>, ins: map<nat, Inode>, role: seq<Role>, taken: seq<nat>,
                     files1: set<Role>, b: nat, data: Block)
    requires n in ins0 && 0 < |ins0[n].addrs| && n in ins && Linked(d1, ins, role)
    requires b < |d1| && role[b].Data? && OnlyMaps(d0, ins0, d1, ins, n, bn, b)
    requires Charged(n, bn, d0, ins0[n], role0, taken0, files0, d1, ins[n], role, taken, files1)
    ensures Spent(n, bn, d0, ins0[n], role0, taken0, files0, d1[b := data], ins[n], role, taken, files1 + {Data(n, bn)})
  {
    DataKeepsBeyond(n, d0, ins0[n].addrs[0], d1, ins, role, b, data, bn / PERINDEX);
    DataKeepsRest(n, bn, d0, ins0, d1, ins, role, b, data);
    assert 0 < |ins[n].addrs|;
  }

  lemma DataKeepsBeyond(n: nat, d0: seq<Block>, a0: nat, d1: seq<Block>, ins: map<nat, Inode>, role: seq<Role>, b: nat,
                        data: Block, q: nat)
    requires n in ins && Linked(d1, ins, role) && b < |d1| && role[b].Data?
    requires Beyond(d0, a0, d1, ins[n].addrs[0], q)
    ensures Beyond(d0, a0, d1[b := data], ins[n].addrs[0], q)
  {
    DataBeyond(n, d1, ins, role, b, data, q);
    BeyondTrans(d0, a0, d1, ins[n].addrs[0], d1[b := data], ins[n].addrs[0], q, q);
  }

  lemma DataKeepsRest(n: nat, bn: nat, d0: seq<Block>, ins0: map<nat, Inode>, d1: seq<Block>, ins: map<nat, Inode>,
                      role: seq<Role>, b: nat, data: Block)
    requires n in ins0 && n in ins && Linked(d1, ins, role) && OnlyMaps(d0, ins0, d1, ins, n, bn, b)
    requires b < |d1| && role[b].Data?
    ensures forall y :: bn < y ==> BlockAt(d1[b := data], ins[n], y) == BlockAt(d0, ins0[n], y)
  {
    WriteKeepsMaps(d1, ins, role, b, data);
    forall y | bn < y ensures BlockAt(d1[b := data], ins[n], y) == BlockAt(d0, ins0[n], y) {
      assert BlockAt(d1, ins[n], y) == BlockAt(d0, ins0[n], y);
    }
  }

  lemma DataBeyond(n: nat, d1: seq<Block>, ins: map<nat, Inode>, role: seq<Role>, b: nat, data: Block, q: nat)
    requires n in ins && Linked(d1, ins, role) && b < |d1| && role[b].Data?
    ensures Beyond(d1, ins[n].addrs[0], d1[b := data], ins[n].addrs[0], q)
  {
    forall i | q < i ensures Walk(d1[b := data], ins[n].addrs[0], i) == Walk(d1, ins[n].addrs[0], i) {
      WalkSame(d1, ins, role, d1[b := data], n, i);
    }
  }

  /** The blocks of file n from k0 to k have been written since the disk was d0. */
  ghost predicate Tally(n: nat, k0: nat, k: nat, d0: seq<Block>, ino0: Inode, role0: seq<Role>,
                        d: seq<Block>, ino: Inode, role: seq<Role>, taken: seq<nat>, files: set<Role>) {
    && k0 <= k && 0 < |ino0.addrs| && 0 < |ino.addrs| && Took(role0, [], role, taken)
    && |taken| == WriteTakes(d0, ino0, k0, k) && files == WriteFiles(d0, ino0, n, k0, k)
    && (forall y :: k <= y ==> BlockAt(d, ino, y) == BlockAt(d0, ino0, y))
    && (if k == k0 then d == d0 && ino.addrs == ino0.addrs
        else Beyond(d0, ino0.addrs[0], d, ino.addrs[0], (k - 1) / PERINDEX))
  }

  /** writei() has written `done`, the blocks from k0 to k, since the disk was d0. */
  ghost predicate Progress(l: Layout, d0: seq<Block>, ins0: map<nat, Inode>, role0: seq<Role>, n: nat, off0: nat,
                           done: seq<byte>, k0: nat, k: nat,
                           d: seq<Block>, ins: map<nat, Inode>, role: seq<Role>, taken: seq<nat>, files: set<Role>) {
    && Underway(l, d0, ins0, n, off0, done, d, ins, role)
    && Tally(n, k0, k, d0, ins0[n], role0, d, ins[n], role, taken, files)
  }

  /** The chain is as it was where the next block may need it. */
  lemma SameNeed(n: nat, k0: nat, k: nat, d0: seq<Block>, ino0: Inode, role0: seq<Role>,
                 d: seq<Block>, ino: Inode, role: seq<Role>, taken: seq<nat>, files: set<Role>)
    requires Tally(n, k0, k, d0, ino0, role0, d, ino, role, taken, files)
    ensures MapTakes(d, ino, k) == MapTakes(d0, ino0, k) && MapFiles(d, ino, n, k) == MapFiles(d0, ino0, n, k)
  {
    if k0 < k && k % PERINDEX == 0 {
      assert (k - 1) / PERINDEX < k / PERINDEX;
      assert Walk(d, ino.addrs[0], k / PERINDEX) == Walk(d0, ino0.addrs[0], k / PERINDEX);
    }
  }

  lemma TallyLacks(n: nat, k0: nat, k: nat, d0: seq<Block>, ino0: Inode, role0: seq<Role>,
                   d: seq<Block>, ino: Inode, role1: seq<Role>, taken1: seq<nat>, files1: set<Role>,
                   role: seq<Role>, taken: seq<nat>, end: nat)
    requires Tally(n, k0, k, d0, ino0, role0, d, ino, role1, taken1, files1) && k < end
    requires Took(role1, taken1, role, taken) && Lacks(k, d, ino, taken1, taken)
    requires k == 0 || BlockAt(d, ino, k - 1) != 0
    ensures Took(role0, [], role, taken) && |taken| < WriteTakes(d0, ino0, k0, end)
  {
    TookTrans(role0, [], role1, taken1, role, taken);
    SameNeed(n, k0, k, d0, ino0, role0, d, ino, role1, taken1, files1);
    TakesGrow(d0, ino0, k0, k + 1, end);
  }

  lemma TallyNext(n: nat, k0: nat, k: nat, d0: seq<Block>, ino0: Inode, role0: seq<Role>,
                  d1: seq<Block>, ino1: Inode, role1: seq<Role>, taken1: seq<nat>, files1: set<Role>,
                  d: seq<Block>, ino: Inode, role: seq<Role>, taken: seq<nat>, files: set<Role>)
    requires Tally(n, k0, k, d0, ino0, role0, d1, ino1, role1, taken1, files1)
    requires Spent(n, k, d1, ino1, role1, taken1, files1, d, ino, role, taken, files)
    requires k == 0 || BlockAt(d1, ino1, k - 1) != 0
    ensures Tally(n, k0, k + 1, d0, ino0, role0, d, ino, role, taken, files)
  {
    SameNeed(n, k0, k, d0, ino0, role0, d1, ino1, role1, taken1, files1);
    TookTrans(role0, [], role1, taken1, role, taken);
    BeyondNext(d0, ino0.addrs[0], d1, ino1.addrs[0], d, ino.addrs[0], k0, k);
  }

  lemma BeyondNext(d0: seq<Block>, a0: nat, d1: seq<Block>, a1: nat, d: seq<Block>, a: nat, k0: nat, k: nat)
    requires k0 <= k
    requires if k == k0 then d1 == d0 && a1 == a0 else Beyond(d0, a0, d1, a1, (k - 1) / PERINDEX)
    requires Beyond(d1, a1, d, a, k / PERINDEX)
    ensures Beyond(d0, a0, d, a, k / PERINDEX)
  {
    if k0 < k {
      BeyondTrans(d0, a0, d1, a1, d, a, (k - 1) / PERINDEX, k / PERINDEX);
    }
  }

  /** The blocks of the free map with the bits of these blocks. */
  ghost function MapBlocks(taken: seq<nat>): set<nat> {
    set i | 0 <= i < |taken| :: taken[i] / BPB
  }

  /** The number of blocks logged: file blocks, map blocks, and the inode's block. */
  ghost function LogCount(files: set<Role>, taken: seq<nat>, updated: bool): nat {
    |files| + |MapBlocks(taken)| + if updated then 1 else 0
  }
}
