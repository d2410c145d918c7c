/**
  A crash at every point of commit() and of recovery, over the write sequences
  that the methods of RedoLog are proved to make.
*/
module CrashPoints {
  import opened LogProtocol
  import opened LogSafety
  import opened RedoLog

  /** The home blocks after the transaction: logged blocks get their new content. */
  ghost function Updated(old': seq<Block>, lh: seq<int>, view: seq<Block>): (r: seq<Block>)
    requires |old'| == |view|
    ensures |r| == |old'|
    ensures forall b :: 0 <= b < |r| ==> r[b] == if b in lh then view[b] else old'[b]
  {
    seq(|old'|, b requires 0 <= b < |old'| => if b in lh then view[b] else old'[b])
  }

  /** Writing the log copies touches the slots and nothing else. */
  lemma {:induction false} AfterLogWrites(c: Config, d0: seq<Block>, lh: seq<int>, view: seq<Block>, n: nat)
    requires n <= |lh| && LhOk(c, lh) && |d0| == |view| == c.nblocks
    ensures forall k :: 0 <= k < n ==> Apply(d0, LogWrites(c, lh, view, n))[Slot(c, k)] == view[lh[k]]
    ensures forall b :: 0 <= b < |d0| && !(c.start < b < c.start + c.size) ==>
      Apply(d0, LogWrites(c, lh, view, n))[b] == d0[b]
  {
    if 0 < n {
      AfterLogWrites(c, d0, lh, view, n - 1);
      ApplySnoc(d0, LogWrites(c, lh, view, n - 1), Write(Slot(c, n - 1), view[lh[n - 1]]));
    }
  }

  lemma {:induction false} LogWritesTake(c: Config, lh: seq<int>, view: seq<Block>, n: nat)
    requires n <= |lh| && InRange(lh, |view|)
    ensures LogWrites(c, lh, view, |lh|)[..n] == LogWrites(c, lh, view, n)
  {
    LogWritesPrefix(c, lh, view, n);
  }

  /** Until the header is written the old content is what recovery restores. */
  lemma BeforeHeader(c: Config, d0: seq<Block>, lh: seq<int>, view: seq<Block>, committed: seq<Block>, n: nat)
    requires CrashSafe(c, d0, committed) && Head(d0[c.start]) == []
    requires LhOk(c, lh) && |view| == c.nblocks && n <= |lh|
    ensures CommitWrites(c, lh, view)[..n] == LogWrites(c, lh, view, n)
    ensures CrashSafe(c, Apply(d0, LogWrites(c, lh, view, n)), committed)
  {
    LogWritesTake(c, lh, view, n);
    AfterLogWrites(c, d0, lh, view, n);
  }

  /** The header write switches from the old content to the new. */
  lemma AfterHeader(c: Config, d0: seq<Block>, lh: seq<int>, view: seq<Block>, committed: seq<Block>)
    requires CrashSafe(c, d0, committed) && Head(d0[c.start]) == []
    requires LhOk(c, lh) && |view| == c.nblocks
    ensures var d1 := Apply(d0, FirstHalf(c, lh, view));
      CrashSafe(c, d1, Updated(committed, lh, view)) &&
      CommitWrites(c, lh, view) == FirstHalf(c, lh, view) + RecoverWrites(c, d1)
  {
    var d1 := Apply(d0, FirstHalf(c, lh, view));
    var dl := Apply(d0, LogWrites(c, lh, view, |lh|));
    AfterLogWrites(c, d0, lh, view, |lh|);
    ApplySnoc(d0, LogWrites(c, lh, view, |lh|), Write(c.start, EncodeHead(view[c.start], lh)));
    assert d1 == dl[c.start := EncodeHead(view[c.start], lh)];
    HeaderSwitches(c, d0, dl, lh, view, committed, d1);
    CommitHalves(c, lh, view, d1);
  }

  lemma HeaderSwitches(c: Config, d0: seq<Block>, dl: seq<Block>, lh: seq<int>, view: seq<Block>, committed: seq<Block>,
                       d1: seq<Block>)
    requires CrashSafe(c, d0, committed) && Head(d0[c.start]) == [] && LhOk(c, lh)
    requires |view| == |dl| == c.nblocks
    requires forall k :: 0 <= k < |lh| ==> dl[Slot(c, k)] == view[lh[k]]
    requires forall b :: 0 <= b < |d0| && !(c.start < b < c.start + c.size) ==> dl[b] == d0[b]
    requires d1 == dl[c.start := EncodeHead(view[c.start], lh)]
    ensures CrashSafe(c, d1, Updated(committed, lh, view)) && Head(d1[c.start]) == lh
    ensures forall k :: 0 <= k < |lh| ==> d1[Slot(c, k)] == view[lh[k]]
  {
    assert Head(d1[c.start]) == lh;
  }

  lemma HeadInRange(c: Config, d0: seq<Block>, committed: seq<Block>)
    requires CrashSafe(c, d0, committed)
    ensures var h := Head(d0[c.start]); InRange(h, |d0|) && Slot(c, |h|) <= |d0|
  {
    var h := Head(d0[c.start]);
    forall k | 0 <= k < |h| ensures 0 <= h[k] < |d0| {
      assert IsHome(c, h[k]);
    }
  }

  /** d is d0 with the first n blocks of its log reinstalled. */
  ghost predicate Reinstalled(c: Config, d0: seq<Block>, committed: seq<Block>, h: seq<int>, n: nat, d: seq<Block>) {
    && CrashSafe(c, d, committed) && |d| == |d0| && c.start < |d0| && d[c.start] == d0[c.start]
    && n <= |h| && InRange(h, |d|) && (forall k :: 0 <= k < n ==> d[h[k]] == committed[h[k]])
  }

  lemma ReinstallOne(c: Config, d0: seq<Block>, committed: seq<Block>, h: seq<int>, n: nat, d: seq<Block>)
    requires Reinstalled(c, d0, committed, h, n, d) && n < |h| && IsHome(c, h[n])
    ensures Reinstalled(c, d0, committed, h, n + 1, d[h[n] := committed[h[n]]])
  {
    InstallKeepsSafe(c, d, committed, h[n]);
  }

  /** n home blocks have been reinstalled from the log of disk d0. */
  lemma {:induction false} AfterInstalls(c: Config, d0: seq<Block>, committed: seq<Block>, h: seq<int>, n: nat)
    requires CrashSafe(c, d0, committed) && h == Head(d0[c.start]) && n <= |h|
    ensures InRange(h, |d0|) && Slot(c, |h|) <= |d0|
    ensures Reinstalled(c, d0, committed, h, n, Apply(d0, InstallWrites(c, h, d0, n)))
  {
    HeadInRange(c, d0, committed);
    if 0 < n {
      AfterInstalls(c, d0, committed, h, n - 1);
      ApplySnoc(d0, InstallWrites(c, h, d0, n - 1), Write(h[n - 1], d0[Slot(c, n - 1)]));
      assert IsHome(c, h[n - 1]) && d0[Slot(c, n - 1)] == committed[h[n - 1]];
      ReinstallOne(c, d0, committed, h, n - 1, Apply(d0, InstallWrites(c, h, d0, n - 1)));
    }
  }

  /** An empty header over home blocks that are all in place. */
  lemma ClearedSafe(c: Config, d0: seq<Block>, committed: seq<Block>, h: seq<int>, d: seq<Block>, d': seq<Block>)
    requires CrashSafe(c, d0, committed) && h == Head(d0[c.start])
    requires Reinstalled(c, d0, committed, h, |h|, d)
    requires d' == d[c.start := EncodeHead(d0[c.start], [])]
    ensures CrashSafe(c, d', committed) && forall b :: IsHome(c, b) ==> d'[b] == committed[b]
  {
    forall b | IsHome(c, b) ensures d[b] == committed[b] {
      if b in h {
        var k :| 0 <= k < |h| && h[k] == b;
      }
    }
  }

  /** After the last write of recovery the home blocks are the committed ones. */
  lemma RecoveryEnds(c: Config, d0: seq<Block>, committed: seq<Block>)
    requires CrashSafe(c, d0, committed)
    ensures InRange(Head(d0[c.start]), |d0|)
    ensures CrashSafe(c, Apply(d0, RecoverWrites(c, d0)), committed)
    ensures forall b :: IsHome(c, b) ==> Apply(d0, RecoverWrites(c, d0))[b] == committed[b]
  {
    var h := Head(d0[c.start]);
    AfterInstalls(c, d0, committed, h, |h|);
    ApplySnoc(d0, InstallWrites(c, h, d0, |h|), Write(c.start, EncodeHead(d0[c.start], [])));
    ClearedSafe(c, d0, committed, h, Apply(d0, InstallWrites(c, h, d0, |h|)), Apply(d0, RecoverWrites(c, d0)));
  }

  /** A crash after any n writes of recovery leaves a disk that recovers to the
      same content; after the last write it is that content. */
  lemma RecoveryCrashPoint(c: Config, d0: seq<Block>, committed: seq<Block>, n: nat)
    requires CrashSafe(c, d0, committed)
    ensures InRange(Head(d0[c.start]), |d0|)
    ensures n <= |RecoverWrites(c, d0)| ==> CrashSafe(c, Apply(d0, RecoverWrites(c, d0)[..n]), committed)
    ensures forall b :: IsHome(c, b) ==> Apply(d0, RecoverWrites(c, d0))[b] == committed[b]
  {
    var h := Head(d0[c.start]);
    RecoveryEnds(c, d0, committed);
    if n <= |h| {
      RecoveryTake(c, d0, h, n);
      AfterInstalls(c, d0, committed, h, n);
    } else if n == |h| + 1 {
      assert RecoverWrites(c, d0)[..n] == RecoverWrites(c, d0);
    }
  }

  lemma RecoveryTake(c: Config, d0: seq<Block>, h: seq<int>, n: nat)
    requires c.start < |d0| && HeadOk(d0[c.start]) && h == Head(d0[c.start]) && Slot(c, |h|) <= |d0| && InRange(h, |d0|)
    requires n <= |h|
    ensures RecoverWrites(c, d0)[..n] == InstallWrites(c, h, d0, n)
  {
    InstallWritesPrefix(c, h, d0, n);
  }

  /** The disk after one recovery attempt for each cut, each losing power after
      that many of its writes. */
  ghost function Reboots(c: Config, disk: seq<Block>, committed: seq<Block>, cuts: seq<nat>): (r: seq<Block>)
    requires CrashSafe(c, disk, committed)
    ensures CrashSafe(c, r, committed)
  {
    if cuts == [] then disk
    else
      var d := Reboots(c, disk, committed, cuts[..|cuts| - 1]);
      var n := cuts[|cuts| - 1];
      RecoveryCrashPoint(c, d, committed, n);
      if n <= |RecoverWrites(c, d)| then Apply(d, RecoverWrites(c, d)[..n]) else d
  }

  /** Crash atomicity of commit().  For every transaction, every crash point n
      among its writes and any number of recoveries cut short anywhere, the
      recovery that completes leaves every home block at its old content if the
      header had not been written and at its new content if it had. */
  lemma CommitIsAtomic(c: Config, d0: seq<Block>, lh: seq<int>, view: seq<Block>, committed: seq<Block>,
                       n: nat, cuts: seq<nat>, b: int)
    requires CrashSafe(c, d0, committed) && Head(d0[c.start]) == []
    requires LhOk(c, lh) && |view| == c.nblocks && n <= |CommitWrites(c, lh, view)| && IsHome(c, b)
    ensures
      var target := if n <= |lh| then committed else Updated(committed, lh, view);
      var d := Apply(d0, CommitWrites(c, lh, view)[..n]);
      CrashSafe(c, d, target) &&
      var r := Reboots(c, d, target, cuts);
      InRange(Head(r[c.start]), |r|) && Apply(r, RecoverWrites(c, r))[b] == target[b]
  {
    var target := if n <= |lh| then committed else Updated(committed, lh, view);
    var d := Apply(d0, CommitWrites(c, lh, view)[..n]);
    CommitCrashPoint(c, d0, lh, view, committed, n);
    var r := Reboots(c, d, target, cuts);
    RecoveryCrashPoint(c, r, target, 0);
  }

  lemma CommitCrashPoint(c: Config, d0: seq<Block>, lh: seq<int>, view: seq<Block>, committed: seq<Block>, n: nat)
    requires CrashSafe(c, d0, committed) && Head(d0[c.start]) == []
    requires LhOk(c, lh) && |view| == c.nblocks && n <= |CommitWrites(c, lh, view)|
    ensures CrashSafe(c, Apply(d0, CommitWrites(c, lh, view)[..n]),
                   if n <= |lh| then committed else Updated(committed, lh, view))
  {
    if n <= |lh| {
      BeforeHeader(c, d0, lh, view, committed, n);
    } else {
      AfterHeader(c, d0, lh, view, committed);
      var first := FirstHalf(c, lh, view);
      var d1 := Apply(d0, first);
      RecoveryCrashPoint(c, d1, Updated(committed, lh, view), n - |first|);
      TakeSecond(d0, first, RecoverWrites(c, d1), CommitWrites(c, lh, view), n);
    }
  }

  lemma TakeSecond(d0: seq<Block>, first: seq<Write>, second: seq<Write>, all: seq<Write>, n: nat)
    requires all == first + second && |first| <= n <= |all|
    ensures Apply(d0, all[..n]) == Apply(Apply(d0, first), second[..n - |first|])
  {
    assert all[..n] == first + second[..n - |first|];
    ApplyConcat(d0, first, second[..n - |first|]);
  }
}
