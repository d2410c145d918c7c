/** The image that mkfs.c writes, read by the kernel. */
module ImageAgreement {
  import opened Options
  import opened DiskBytes
  import opened FileChain
  import opened FileContents
  import opened FileUpdates
  import FileSystem
  import opened ImageBuilder

  /** One call of iappend(). */
  datatype Append = Append(inum: nat, bytes: seq<byte>)

  /** The bytes that a run of calls appends to file n, in order. */
  function Bytes(calls: seq<Append>, n: nat): seq<byte> {
    if calls == [] then []
    else Bytes(calls[..|calls| - 1], n) + (if calls[|calls| - 1].inum == n then calls[|calls| - 1].bytes else [])
  }

  /** The files of an image after a run of calls. */
  ghost predicate Matches(content: map<nat, seq<byte>>, ninodes: nat, calls: seq<Append>) {
    && (forall n :: n in content <==> 0 <= n < ninodes)
    && (forall n :: n in content ==> content[n] == Bytes(calls, n))
  }

  lemma MatchesNext(content: map<nat, seq<byte>>, ninodes: nat, calls: seq<Append>, i: nat)
    requires i < |calls| && Matches(content, ninodes, calls[..i]) && calls[i].inum < ninodes
    ensures Matches(content[calls[i].inum := content[calls[i].inum] + calls[i].bytes], ninodes, calls[..i + 1])
  {
    assert calls[..i + 1][..i] == calls[..i];
  }

  /** Any run of calls of iappend(). */
  method RunCalls(l: Layout, ninodes: nat, calls: seq<Append>) returns (ok: bool, img: Image)
    requires LayoutOk(l) && forall i :: 0 <= i < |calls| ==> calls[i].inum < ninodes
    ensures fresh(img) && img.l == l
    ensures !ok ==> l.size <= img.freeblock
    ensures ok ==> img.Valid() && Matches(img.content, ninodes, calls)
  {
    img := new Image(l, ninodes);
    var i := 0;
    while i < |calls|
      invariant 0 <= i <= |calls|
      invariant img.Valid() && Matches(img.content, ninodes, calls[..i])
    {
      MatchesNext(img.content, ninodes, calls, i);
      ok := img.Iappend(calls[i].inum, calls[i].bytes);
      if !ok {
        return;
      }
      i := i + 1;
    }
    assert calls[..i] == calls;
    ok := true;
  }

  /** Any run of calls and then balloc(): the free map marks the blocks taken, no
      block has two uses, and each file holds its bytes without holes. */
  method Build(l: Layout, ninodes: nat, calls: seq<Append>)
    returns (ok: bool, disk: seq<Block>, inodes: map<nat, Inode>, freeblock: nat, ghost role: seq<Role>)
    requires LayoutOk(l) && forall i :: 0 <= i < |calls| ==> calls[i].inum < ninodes
    ensures !ok ==> l.size <= freeblock || BPB <= freeblock
    ensures ok ==> Owned(l, disk, inodes, role)
    ensures ok ==> forall b :: 0 <= b < l.size ==> (Marked(l, disk, b) <==> b < freeblock)
    ensures ok ==> forall n :: 0 <= n < ninodes ==> n in inodes && FileIs(disk, inodes[n], Bytes(calls, n))
  {
    var img;
    ok, img := RunCalls(l, ninodes, calls);
    if ok {
      ok := img.Balloc();
    }
    disk, inodes, freeblock, role := img.disk, img.inodes, img.freeblock, img.role;
  }

  /** readi() of the kernel on an image returns the bytes of the file and takes no
      block for it. */
  method ReadImage(l: Layout, disk: seq<Block>, inodes: map<nat, Inode>, ghost role: seq<Role>, n: nat,
                   ghost c: seq<byte>, off: nat, cnt: nat)
    returns (r: Option<seq<byte>>, fs: FileSystem.FileSystem)
    requires Owned(l, disk, inodes, role) && n in inodes && FileIs(disk, inodes[n], c)
    requires off < FileSystem.UINT && cnt < FileSystem.UINT
    ensures r.None? <==> |c| < off || FileSystem.UINT <= off + cnt
    ensures r.Some? ==> r.value == c[off..FileSystem.Min(off + cnt, |c|)]
    ensures fs.disk == disk && fs.inodes == inodes
  {
    FileHolds(disk, inodes[n], c);
    fs := new FileSystem.FileSystem(l, disk, inodes, role);
    r := fs.Readi(n, off, cnt);
  }

  /** What the kernel reads from the finished image is what was appended. */
  method ReadBack(l: Layout, ninodes: nat, calls: seq<Append>, n: nat, off: nat, cnt: nat)
    returns (ok: bool, r: Option<seq<byte>>, freeblock: nat)
    requires LayoutOk(l) && (forall i :: 0 <= i < |calls| ==> calls[i].inum < ninodes)
    requires n < ninodes && off < FileSystem.UINT && cnt < FileSystem.UINT
    ensures !ok ==> l.size <= freeblock || BPB <= freeblock
    ensures ok ==> (r.None? <==> |Bytes(calls, n)| < off || FileSystem.UINT <= off + cnt)
    ensures ok && r.Some? ==> r.value == Bytes(calls, n)[off..FileSystem.Min(off + cnt, |Bytes(calls, n)|)]
  {
    r := None;
    var disk, inodes;
    ghost var role;
    ok, disk, inodes, freeblock, role := Build(l, ninodes, calls);
    if ok {
      var fs;
      r, fs := ReadImage(l, disk, inodes, role, n, Bytes(calls, n), off, cnt);
    }
  }
}
