/**
  dirlookup(), dirlink(), create(), link() and unlink() on the directory graph,
  each as one transaction.  Paths are resolved: a call gets the directory that
  nameiparent() found.
*/
module Directories {
  import opened Options
  import opened LinkCounts
  import opened DirectoryNames

  /** The slots that fit into the largest file. */
  const MAXSLOTS: nat := 128 * 2048 * 512 / 16

  /** An int stored in a short. */
  function Short(x: int): int {
    (x + 32768) % 65536 - 32768
  }

  datatype LinkResult = Done | Exists | Panic

  datatype CreateResult = Created(inum: nat) | Opened(inum: nat) | Refused | Halted

  // ---------------------------------------------------------------- the loops

  /** dirlookup(): the first slot in use with the name. */
  method Dirlookup(entries: seq<Entry>, name: string) returns (r: Option<nat>)
    ensures r.Some? ==> r.value < |entries| && entries[r.value].inum != 0 && entries[r.value].name == name
    ensures r.Some? ==> forall s :: 0 <= s < r.value ==> entries[s].inum == 0 || entries[s].name != name
    ensures r.None? <==> !Taken(entries, name)
    ensures Lookup(entries, name) == if r.Some? then entries[r.value].inum else 0
  {
    var off := 0;
    while off < |entries|
      invariant 0 <= off <= |entries|
      invariant forall s :: 0 <= s < off ==> entries[s].inum == 0 || entries[s].name != name
    {
      if entries[off].inum != 0 && entries[off].name == name {
        LookupFirst(entries, name, off);
        return Some(off);
      }
      off := off + 1;
    }
    LookupNone(entries, name);
    return None;
  }

  /** The second loop of dirlink(). */
  method FreeSlot(entries: seq<Entry>) returns (s: nat)
    ensures FirstFree(entries, s)
  {
    s := 0;
    while s < |entries|
      invariant s <= |entries|
      invariant forall t :: 0 <= t < s ==> entries[t].inum != 0
    {
      if entries[s].inum == 0 {
        return;
      }
      s := s + 1;
    }
  }

  /** Nothing in use behind the first two slots. */
  predicate Empty(entries: seq<Entry>) {
    forall s :: 2 <= s < |entries| ==> entries[s].inum == 0
  }

  /** isdirempty() */
  method IsDirEmpty(entries: seq<Entry>) returns (r: bool)
    ensures r <==> Empty(entries)
  {
    var off := 2;
    while off < |entries|
      invariant 2 <= off
      invariant forall s :: 2 <= s < off && s < |entries| ==> entries[s].inum == 0
    {
      if entries[off].inum != 0 {
        return false;
      }
      off := off + 1;
    }
    return true;
  }

  class Tree {
    const ninodes: nat
    var g: Nodes

    constructor (ninodes: nat, g: Nodes)
      requires Valid(g) && forall n :: 0 < n < ninodes ==> n in g
      ensures this.g == g && this.ninodes == ninodes
    {
      this.ninodes := ninodes;
      this.g := g;
    }

    ghost predicate Inodes()
      reads this
    {
      forall n :: 0 < n < ninodes ==> n in g
    }

    /** ialloc(): the first inode that is not in use. */
    method Ialloc() returns (r: Option<nat>)
      requires Inodes()
      ensures r.Some? ==> 0 < r.value < ninodes && r.value in g && g[r.value].kind == Unused
      ensures r.Some? ==> forall n :: 0 < n < r.value ==> g[n].kind != Unused
      ensures r.None? ==> forall n :: 0 < n < ninodes ==> g[n].kind != Unused
    {
      var inum := 1;
      while inum < ninodes
        invariant 1 <= inum
        invariant forall n :: 0 < n < inum && n < ninodes ==> g[n].kind != Unused
      {
        if g[inum].kind == Unused {
          return Some(inum);
        }
        inum := inum + 1;
      }
      return None;
    }

    /** dirlink(): a slot for the name, unless there is one; writei() panics when
        the directory is as large as a file can be. */
    method Dirlink(dp: nat, name: string, inum: nat) returns (r: LinkResult, ghost s: nat)
      requires dp in g
      modifies this`g
      ensures r == Exists <==> Taken(old(g)[dp].entries, name)
      ensures r != Done ==> g == old(g)
      ensures r == Done ==>
        FirstFree(old(g)[dp].entries, s) &&
        g == old(g)[dp := old(g)[dp].(entries := Put(old(g)[dp].entries, s, Entry(inum, name)))]
      ensures r == Panic ==> MAXSLOTS <= |old(g)[dp].entries|
    {
      s := 0;
      var found := Dirlookup(g[dp].entries, name);
      if found.Some? {
        return Exists, 0;
      }
      var off := FreeSlot(g[dp].entries);
      if MAXSLOTS <= off {
        return Panic, 0;
      }
      g := g[dp := g[dp].(entries := Put(g[dp].entries, off, Entry(inum, name)))];
      return Done, off;
    }

    /** link() on a file: ip->nlink goes up first and down again when the name
        cannot be added. */
    method LinkFile(ip: nat, parent: Option<nat>, name: string) returns (r: LinkResult, ghost s: nat)
      requires ip in g && IsLeaf(g[ip].kind) && 0 <= g[ip].nlink <= MAXLINK
      requires parent.Some? ==> parent.value in g && g[parent.value].kind == Dir
      modifies this`g
      ensures r == Exists ==> g == old(g)
      ensures r == Exists <==> parent.None? || Taken(old(g)[parent.value].entries, name)
      ensures r == Panic ==> parent.Some? && MAXSLOTS <= |old(g)[parent.value].entries|
      ensures r == Done ==> parent.Some? && Linking(old(g), parent.value, s, Entry(ip, name), g)
    {
      ghost var g0 := g;
      s := 0;
      g := g[ip := g[ip].(nlink := Short(g[ip].nlink + 1))];
      if parent.Some? {
        r, s := Dirlink(parent.value, name, ip);
        if r != Exists {
          return;
        }
      }
      g := g[ip := g[ip].(nlink := Short(g[ip].nlink - 1))];
      assert g[ip] == g0[ip];
      return Exists, 0;
    }

    /** link(): after success the counts are right if and only if the directory is
        still linked and the count fits a short; without it nothing changes. */
    method Link(ip: nat, parent: Option<nat>, name: string) returns (r: LinkResult)
      requires Valid(g) && ip in g && g[ip].kind != Unused
      requires parent.Some? ==> parent.value in g && g[parent.value].kind == Dir
      modifies this`g
      ensures r == Exists ==> g == old(g)
      ensures r == Exists <==> old(g)[ip].kind == Dir || parent.None? || Taken(old(g)[parent.value].entries, name)
      ensures r == Panic ==> parent.Some? && MAXSLOTS <= |old(g)[parent.value].entries|
      ensures r == Done ==> parent.Some? && exists s :: Linking(old(g), parent.value, s, Entry(ip, name), g)
      ensures r == Done ==> Resolves(old(g), g, parent.value, name, ip)
      ensures r == Done ==> ip in g && g[ip].kind == old(g)[ip].kind && g[ip].nlink == Short(old(g)[ip].nlink + 1)
      ensures r == Done ==> parent.Some? && (Valid(g) <==> Linked(old(g), parent.value) && old(g)[ip].nlink < MAXLINK)
    {
      if g[ip].kind == Dir {
        return Exists;
      }
      ghost var s;
      assert NodeOk(ip, g[ip]);
      r, s := LinkFile(ip, parent, name);
      if r == Done {
        LinkResolves(old(g), parent.value, s, Entry(ip, name), g);
        LinkDone(old(g), parent.value, s, Entry(ip, name), g);
      }
    }

    /** The entries "." and ".." of a new directory; "create dots" cannot happen. */
    method AddDots(ip: nat, dp: nat)
      requires ip in g && dp in g && ip != dp && g[ip].entries == [] && 0 < ip
      modifies this`g
      ensures g == old(g)[ip := old(g)[ip].(entries := [Entry(ip, "."), Entry(dp, "..")])]
    {
      var done;
      ghost var t;
      done, t := Dirlink(ip, ".", ip);
      assert done == Done && g[ip].entries == [Entry(ip, ".")];
      done, t := Dirlink(ip, "..", dp);
      assert done == Done && g[ip].entries == [Entry(ip, "."), Entry(dp, "..")];
    }

    /** create() for a name that is not there: the inode, the dots of a directory,
        and the name.  Its panics are that there is no inode or no slot. */
    method MakeNode(dp: nat, name: string, kind: Kind) returns (r: CreateResult, ghost s: nat)
      requires Inodes() && dp in g && g[dp].kind == Dir && kind != Unused
      requires forall n :: n in g && g[n].kind == Unused ==> g[n].entries == []
      requires !Taken(g[dp].entries, name)
      modifies this`g
      ensures r.Created? || r.Halted?
      ensures r.Halted? ==>
        (forall n :: 0 < n < ninodes ==> old(g)[n].kind != Unused) || MAXSLOTS <= |old(g)[dp].entries|
      ensures r.Created? ==> Creating(old(g), dp, s, Entry(r.inum, name), kind, g)
    {
      s := 0;
      var ino := Ialloc();
      if ino.None? {
        return Halted, 0;
      }
      var ip := ino.value;
      ghost var g0 := g;
      g := g[ip := Node(kind, 1, g[ip].entries)];
      if kind == Dir {
        g := g[dp := g[dp].(nlink := Short(g[dp].nlink + 1))];
        AddDots(ip, dp);
      }
      assert g[dp].entries == g0[dp].entries;
      var done;
      done, s := Dirlink(dp, name, ip);
      assert done != Exists;
      if done == Panic {
        return Halted, 0;
      }
      return Created(ip), s;
    }

    /** create(): after success the counts are right if and only if the directory
        is still linked and, for a directory, its count fits a short.  It panics
        without an inode or a slot, and ilock() does when a name stands for an inode
        that is not in use, as ".." can in a directory that is no longer linked. */
    method Create(dp: nat, name: string, kind: Kind) returns (r: CreateResult)
      requires Valid(g) && Inodes() && dp in g && g[dp].kind == Dir && kind != Unused
      modifies this`g
      ensures r.Opened? || r.Refused? ==> g == old(g)
      ensures r.Opened? ==>
        exists t :: Stands(old(g), dp, name, t, r.inum) && kind == File && old(g)[r.inum].kind == File
      ensures r.Refused? ==> exists t, n :: Stands(old(g), dp, name, t, n) && !(kind == File && old(g)[n].kind == File)
      ensures r.Halted? && Linked(old(g), dp) ==>
        (forall n :: 0 < n < ninodes ==> old(g)[n].kind != Unused) || MAXSLOTS <= |old(g)[dp].entries|
      ensures r.Created? ==> exists s :: Creating(old(g), dp, s, Entry(r.inum, name), kind, g)
      ensures r.Created? ==> r.inum in old(g) && old(g)[r.inum].kind == Unused && r.inum in g && r.inum != dp
      ensures r.Created? ==> g[r.inum].kind == kind && g[r.inum].nlink == 1
      ensures r.Created? ==> g[r.inum].entries == if kind == Dir then [Entry(r.inum, "."), Entry(dp, "..")] else []
      ensures r.Created? ==> Resolves(old(g), g - {r.inum}, dp, name, r.inum)
      ensures r.Created? ==> (Valid(g) <==> Linked(old(g), dp) && (kind == Dir ==> old(g)[dp].nlink < MAXLINK))
    {
      var found := Dirlookup(g[dp].entries, name);
      if found.Some? {
        var ip := g[dp].entries[found.value].inum;
        if Linked(g, dp) {
          EntryNamed(g, dp, found.value);
        }
        if ip !in g || g[ip].kind == Unused {
          return Halted;
        }
        assert Stands(g, dp, name, found.value, ip);
        if kind == File && g[ip].kind == File {
          return Opened(ip);
        }
        return Refused;
      }
      ghost var s;
      UnusedIsEmpty(g);
      r, s := MakeNode(dp, name, kind);
      if r.Created? {
        CreateResolves(old(g), dp, s, Entry(r.inum, name), kind, g);
        CreateDone(old(g), dp, s, Entry(r.inum, name), kind, g);
      }
    }

    /** unlink(): the name goes and the counts stay right.  The panic for a count
        below one cannot happen; a directory that is removed has no links left. */
    method Unlink(dp: nat, name: string) returns (ok: bool)
      requires Valid(g) && dp in g && g[dp].kind == Dir
      modifies this`g
      ensures Valid(g)
      ensures !ok ==> g == old(g)
      ensures ok ==> exists s, n :: Stands(old(g), dp, name, s, n) && Unlinking(old(g), dp, s, n, g)
      ensures ok ==> name != "." && name != ".." && Removed(old(g), dp, name, g)
      ensures ok ==> forall d, x :: d in g && (d != dp || x != name) ==>
        Lookup(g[d].entries, x) == Lookup(old(g)[d].entries, x)
      ensures ok && Unique(old(g)[dp].entries) ==> Lookup(g[dp].entries, name) == 0
      ensures !ok && name != "." && name != ".." && Taken(old(g)[dp].entries, name) ==>
        exists s, n :: Stands(old(g), dp, name, s, n) && old(g)[n].kind == Dir && !Empty(old(g)[n].entries)
    {
      if name == "." || name == ".." {
        return false;
      }
      var found := Dirlookup(g[dp].entries, name);
      if found.None? {
        return false;
      }
      var s := found.value;
      var ip := g[dp].entries[s].inum;
      FoundName(g, dp, s, name);
      assert 1 <= g[ip].nlink && Stands(g, dp, name, s, ip);
      var empty := IsDirEmpty(g[ip].entries);
      if g[ip].kind == Dir && !empty {
        return false;
      }
      ghost var g0 := g;
      Erase(dp, s, ip);
      UnlinkResolves(g0, dp, s, ip, g);
      UnlinkDone(g0, dp, s, ip, name, g);
      return true;
    }

    /** The writes of unlink(): the slot, and the two counts. */
    method Erase(dp: nat, s: nat, ip: nat)
      requires dp in g && ip in g && dp != ip && g[dp].kind == Dir && s < |g[dp].entries|
      modifies this`g
      ensures g == old(g)[dp := Node(Dir,
                                    if old(g)[ip].kind == Dir then Short(old(g)[dp].nlink - 1) else old(g)[dp].nlink,
                                     old(g)[dp].entries[s := Entry(0, "")])]
                         [ip := old(g)[ip].(nlink := Short(old(g)[ip].nlink - 1))]
    {
      g := g[dp := g[dp].(entries := g[dp].entries[s := Entry(0, "")])];
      if g[ip].kind == Dir {
        g := g[dp := g[dp].(nlink := Short(g[dp].nlink - 1))];
      }
      g := g[ip := g[ip].(nlink := Short(g[ip].nlink - 1))];
    }

    /** The end of iput(): an inode without links is given up. */
    method Reclaim(n: nat)
      requires Valid(g) && n in g && g[n].nlink == 0
      modifies this`g
      ensures Valid(g) && g == old(g)[n := Node(Unused, 0, [])]
    {
      assert NodeOk(n, g[n]);
      ChangeKeeps(g, n, Node(Unused, 0, []), g[n := Node(Unused, 0, [])]);
      g := g[n := Node(Unused, 0, [])];
    }
  }

  /** In g' the name in dp stands for n, and every other name for what it did in g. */
  ghost predicate Resolves(g: Nodes, g': Nodes, dp: nat, name: string, n: nat) {
    forall d, x :: d in g && d in g' ==>
      Lookup(g'[d].entries, x) == if d == dp && x == name then n else Lookup(g[d].entries, x)
  }

  lemma LinkResolves(g: Nodes, dp: nat, s: nat, e: Entry, g': Nodes)
    requires Linking(g, dp, s, e, g') && 0 < e.inum
    ensures Resolves(g, g', dp, e.name, e.inum)
  {
    forall d, x | d in g && d in g'
      ensures Lookup(g'[d].entries, x) == if d == dp && x == e.name then e.inum else Lookup(g[d].entries, x)
    {
      PutLookup(g[dp].entries, s, e, x);
    }
  }

  lemma CreateResolves(g: Nodes, dp: nat, s: nat, e: Entry, kind: Kind, g': Nodes)
    requires Creating(g, dp, s, e, kind, g')
    ensures Resolves(g, g' - {e.inum}, dp, e.name, e.inum)
  {
    forall d, x | d in g && d in g' - {e.inum}
      ensures Lookup(g'[d].entries, x) == if d == dp && x == e.name then e.inum else Lookup(g[d].entries, x)
    {
      PutLookup(g[dp].entries, s, e, x);
    }
  }

  lemma UnlinkResolves(g: Nodes, dp: nat, s: nat, n: nat, g': Nodes)
    requires Unlinking(g, dp, s, n, g') && n != dp
    ensures forall d, x :: d in g' && (d != dp || x != g[dp].entries[s].name) ==>
      d in g && Lookup(g'[d].entries, x) == Lookup(g[d].entries, x)
    ensures Unique(g[dp].entries) ==> Lookup(g'[dp].entries, g[dp].entries[s].name) == 0
  {
    forall d, x | d in g' && (d != dp || x != g[dp].entries[s].name)
      ensures d in g && Lookup(g'[d].entries, x) == Lookup(g[d].entries, x)
    {
      ClearLookup(g[dp].entries, s, x);
    }
    ClearLookup(g[dp].entries, s, g[dp].entries[s].name);
  }

  /** The state after link() has found slot s. */
  ghost predicate Linking(g: Nodes, dp: nat, s: nat, e: Entry, g': Nodes) {
    && dp in g && g[dp].kind == Dir && e.inum in g && IsLeaf(g[e.inum].kind) && g[e.inum].nlink <= MAXLINK
    && FirstFree(g[dp].entries, s) && !Taken(g[dp].entries, e.name)
    && g' == g[e.inum := g[e.inum].(nlink := Short(g[e.inum].nlink + 1))]
               [dp := g[dp].(entries := Put(g[dp].entries, s, e))]
  }

  lemma LinkingLinks(g: Nodes, dp: nat, s: nat, e: Entry, g': Nodes)
    requires NodesOk(g) && Linking(g, dp, s, e, g') && Linked(g, dp) && g[e.inum].nlink < MAXLINK
    ensures LinksFile(g, dp, s, e, g')
  {
    assert NodeOk(dp, g[dp]) && NodeOk(e.inum, g[e.inum]);
  }

  lemma LinkGood(g: Nodes, dp: nat, s: nat, e: Entry, g': Nodes)
    requires Valid(g) && Linking(g, dp, s, e, g') && Linked(g, dp) && g[e.inum].nlink < MAXLINK
    ensures Valid(g')
  {
    LinkingLinks(g, dp, s, e, g');
    LinkKeeps(g, dp, s, e, g');
  }

  lemma LinkOverflows(g: Nodes, dp: nat, s: nat, e: Entry, g': Nodes)
    requires NodesOk(g) && Linking(g, dp, s, e, g') && MAXLINK <= g[e.inum].nlink
    ensures !NodesOk(g')
  {
    assert g'[e.inum].nlink == -32768;
    assert !NodeOk(e.inum, g'[e.inum]);
  }

  lemma LinkUncounted(g: Nodes, dp: nat, s: nat, e: Entry, g': Nodes)
    requires NodesOk(g) && Counted(g) && Linking(g, dp, s, e, g') && g[e.inum].nlink < MAXLINK && !Linked(g, dp)
    ensures !Counted(g')
  {
    assert NodeOk(e.inum, g[e.inum]) && CountOk(g, e.inum, g[e.inum].nlink);
    NotCounted(g, dp, e.inum, g');
    assert !CountOk(g', e.inum, g'[e.inum].nlink);
  }

  lemma LinkDone(g: Nodes, dp: nat, s: nat, e: Entry, g': Nodes)
    requires Valid(g) && Linking(g, dp, s, e, g')
    ensures Valid(g') <==> Linked(g, dp) && g[e.inum].nlink < MAXLINK
  {
    if MAXLINK <= g[e.inum].nlink {
      LinkOverflows(g, dp, s, e, g');
    } else if Linked(g, dp) {
      LinkGood(g, dp, s, e, g');
    } else {
      LinkUncounted(g, dp, s, e, g');
    }
  }

  /** The state after create() has made inode e.inum and found slot s. */
  ghost predicate Creating(g: Nodes, dp: nat, s: nat, e: Entry, kind: Kind, g': Nodes) {
    && dp in g && g[dp].kind == Dir && e.inum in g && g[e.inum].kind == Unused && 0 < e.inum && kind != Unused
    && FirstFree(g[dp].entries, s) && !Taken(g[dp].entries, e.name)
    && g' == g[e.inum := Fresh(e.inum, dp, kind, 1)]
              [dp := Node(Dir, if kind == Dir then Short(g[dp].nlink + 1) else g[dp].nlink, Put(g[dp].entries, s, e))]
  }

  function Fresh(n: nat, dp: nat, kind: Kind, nlink: int): Node {
    Node(kind, nlink, if kind == Dir then [Entry(n, "."), Entry(dp, "..")] else [])
  }

  lemma UnusedIsEmpty(g: Nodes)
    requires NodesOk(g)
    ensures forall n :: n in g && g[n].kind == Unused ==> g[n].entries == []
  {
    forall n | n in g && g[n].kind == Unused ensures g[n].entries == [] {
      assert NodeOk(n, g[n]);
    }
  }

  /** The new inode before it has a name. */
  lemma FreshChanges(g: Nodes, dp: nat, s: nat, e: Entry, kind: Kind, g': Nodes, g1: Nodes)
    requires NodesOk(g) && Creating(g, dp, s, e, kind, g') && Linked(g, dp)
    requires g1 == g[e.inum := Fresh(e.inum, dp, kind, 0)]
    requires kind == Dir ==> g[dp].nlink < MAXLINK
    ensures Changes(g, e.inum, Fresh(e.inum, dp, kind, 0), g1)
    ensures IsLeaf(kind) ==> LinksFile(g1, dp, s, e, g')
    ensures kind == Dir ==> LinksDir(g1, dp, s, e, g')
  {
    assert NodeOk(dp, g[dp]) && NodeOk(e.inum, g[e.inum]);
  }

  lemma CreateGood(g: Nodes, dp: nat, s: nat, e: Entry, kind: Kind, g': Nodes)
    requires Valid(g) && Creating(g, dp, s, e, kind, g') && Linked(g, dp) && (kind == Dir ==> g[dp].nlink < MAXLINK)
    ensures Valid(g')
  {
    var g1 := g[e.inum := Fresh(e.inum, dp, kind, 0)];
    FreshChanges(g, dp, s, e, kind, g', g1);
    ChangeKeeps(g, e.inum, Fresh(e.inum, dp, kind, 0), g1);
    if IsLeaf(kind) {
      LinkKeeps(g1, dp, s, e, g');
    } else {
      LinkDirKeeps(g1, dp, s, e, g');
    }
  }

  lemma CreateOverflows(g: Nodes, dp: nat, s: nat, e: Entry, g': Nodes)
    requires NodesOk(g) && Creating(g, dp, s, e, Dir, g') && MAXLINK <= g[dp].nlink
    ensures !NodesOk(g')
  {
    assert g'[dp].nlink == -32768;
    assert !NodeOk(dp, g'[dp]);
  }

  lemma CreateUncounted(g: Nodes, dp: nat, s: nat, e: Entry, kind: Kind, g': Nodes)
    requires NodesOk(g) && Counted(g) && Creating(g, dp, s, e, kind, g') && IsLeaf(kind) && !Linked(g, dp)
    ensures !Counted(g')
  {
    assert NodeOk(e.inum, g[e.inum]) && CountOk(g, e.inum, g[e.inum].nlink);
    NotCounted(g, dp, e.inum, g');
    assert !CountOk(g', e.inum, g'[e.inum].nlink);
  }

  /** A directory made in one without links gives that a link but no name. */
  lemma CreateUnrooted(g: Nodes, dp: nat, s: nat, e: Entry, g': Nodes)
    requires NodesOk(g) && Counted(g) && Creating(g, dp, s, e, Dir, g') && !Linked(g, dp)
    ensures !Rooted(g')
  {
    assert NodeOk(dp, g[dp]) && NodeOk(e.inum, g[e.inum]) && CountOk(g, dp, g[dp].nlink);
    var p := g'[dp].entries[1].inum;
    forall t: nat | 2 <= t ensures !Names(g', p, t, dp) {
      Unnamed(g, dp, p, t);
    }
    assert Linked(g', dp) && !HasSlot(g', p, dp);
  }

  /** And the ".." of that directory counts for its parent again, or for whatever
      has the inode now. */
  lemma CreateMiscounts(g: Nodes, dp: nat, s: nat, e: Entry, g': Nodes)
    requires NodesOk(g) && Counted(g) && Creating(g, dp, s, e, Dir, g') && !Linked(g, dp) && g[dp].entries[1].inum in g
    ensures !Counted(g')
  {
    var p := g[dp].entries[1].inum;
    assert NodeOk(dp, g[dp]) && NodeOk(e.inum, g[e.inum]) && CountOk(g, p, g[p].nlink);
    assert Names(g', dp, 1, p) && Names(g', dp, s, e.inum) && Names(g', e.inum, 1, dp);
    if p == dp {
      AtLeastTwo(Refs(g', p), (dp, 1), (e.inum, 1));
    } else if p == e.inum {
      AtLeastTwo(Refs(g', p), (dp, 1), (dp, s));
    } else {
      RefsGain(g, g', p, dp, 1);
    }
    assert !CountOk(g', p, g'[p].nlink);
  }

  lemma CreateDone(g: Nodes, dp: nat, s: nat, e: Entry, kind: Kind, g': Nodes)
    requires Valid(g) && Creating(g, dp, s, e, kind, g')
    ensures Valid(g') <==> Linked(g, dp) && (kind == Dir ==> g[dp].nlink < MAXLINK)
  {
    if kind == Dir && MAXLINK <= g[dp].nlink {
      CreateOverflows(g, dp, s, e, g');
    } else if Linked(g, dp) {
      CreateGood(g, dp, s, e, kind, g');
    } else if kind == Dir {
      CreateUnrooted(g, dp, s, e, g');
    } else {
      CreateUncounted(g, dp, s, e, kind, g');
    }
  }

  /** A name in a directory without links does not count. */
  lemma NotCounted(g: Nodes, dp: nat, n: nat, g': Nodes)
    requires n in g && dp in g && !Linked(g, dp) && dp != n && !Linked(g, n) && CountOk(g, n, g[n].nlink)
    requires n in g' && dp in g' && g' == g[n := g'[n]][dp := g'[dp]] && !Linked(g', dp) && !Linked(g', n)
    requires g'[n].nlink == g[n].nlink + 1
    ensures !CountOk(g', n, g'[n].nlink)
  {
    forall d: nat, t: nat ensures Names(g', d, t, n) <==> Names(g, d, t, n) {
    }
    RefsSame(g, g', n);
  }

  /** Slot s is the first with the name, and it stands for inode n. */
  ghost predicate Stands(g: Nodes, dp: nat, name: string, s: int, n: nat) {
    && dp in g && n in g && 0 <= s < |g[dp].entries| && g[dp].entries[s] == Entry(n, name) && n != 0
    && forall t :: 0 <= t < s ==> g[dp].entries[t].inum == 0 || g[dp].entries[t].name != name
  }

  /** What unlink() does to the inode that the name stood for. */
  ghost predicate Removed(g: Nodes, dp: nat, name: string, g': Nodes) {
    exists s :: IsRemoved(g, dp, name, g', s)
  }

  ghost predicate IsRemoved(g: Nodes, dp: nat, name: string, g': Nodes, s: int) {
    && dp in g && dp in g' && 2 <= s < |g[dp].entries| == |g'[dp].entries| && g[dp].entries[s].name == name
    && g'[dp].entries[s].inum == 0
    && var n := g[dp].entries[s].inum;
    n in g && n in g' && g'[n].nlink == g[n].nlink - 1 && (g[n].kind == Dir ==> g'[n].nlink == 0)
  }

  /** Every slot in use of a linked directory names an inode in use. */
  lemma EntryNamed(g: Nodes, dp: nat, s: nat)
    requires Valid(g) && Linked(g, dp) && s < |g[dp].entries| && g[dp].entries[s].inum != 0
    ensures var n := g[dp].entries[s].inum; n in g && g[n].kind != Unused
  {
    assert NodeOk(dp, g[dp]);
    if s == 1 && dp != ROOT {
      assert HasSlot(g, g[dp].entries[1].inum, dp);
    } else if 2 <= s {
      assert Names(g, dp, s, g[dp].entries[s].inum);
      assert HolderOk(g, dp, s, g[dp].entries[s].inum);
    }
  }

  /** A name other than the dots leads to an inode with a link. */
  lemma FoundName(g: Nodes, dp: nat, s: nat, name: string)
    requires Valid(g) && dp in g && g[dp].kind == Dir && s < |g[dp].entries| && g[dp].entries[s].inum != 0
    requires g[dp].entries[s].name == name && name != "." && name != ".."
    ensures var n := g[dp].entries[s].inum;
      n in g && 1 <= g[n].nlink && 2 <= s && Names(g, dp, s, n) && n != ROOT && g[n].kind != Unused
  {
    var n := g[dp].entries[s].inum;
    assert NodeOk(dp, g[dp]);
    assert Linked(g, dp) && Names(g, dp, s, n);
    assert HolderOk(g, dp, s, n);
    assert (dp, s) in Refs(g, n);
    assert CountOk(g, n, g[n].nlink);
    assert NodeOk(n, g[n]);
  }

  /** The state after unlink() of slot s, which names n. */
  ghost predicate Unlinking(g: Nodes, dp: nat, s: nat, n: nat, g': Nodes) {
    && Names(g, dp, s, n) && 2 <= s && n in g && 0 < n && g[n].kind != Unused && 1 <= g[n].nlink
    && (g[n].kind == Dir ==> Empty(g[n].entries))
    && g' == g[dp := Node(Dir, if g[n].kind == Dir then Short(g[dp].nlink - 1) else g[dp].nlink,
                            g[dp].entries[s := Entry(0, "")])]
               [n := g[n].(nlink := Short(g[n].nlink - 1))]
  }

  lemma UnlinkingUnlinks(g: Nodes, dp: nat, s: nat, n: nat, g': Nodes)
    requires NodesOk(g) && Unlinking(g, dp, s, n, g')
    ensures n != dp
    ensures IsLeaf(g[n].kind) ==> UnlinksFile(g, dp, s, n, g')
    ensures g[n].kind == Dir ==> UnlinksDir(g, dp, s, n, g')
  {
    assert NodeOk(dp, g[dp]) && NodeOk(n, g[n]);
  }

  lemma UnlinkDone(g: Nodes, dp: nat, s: nat, n: nat, name: string, g': Nodes)
    requires Valid(g) && Unlinking(g, dp, s, n, g') && g[dp].entries[s].name == name
    ensures Valid(g') && Removed(g, dp, name, g')
  {
    UnlinkingUnlinks(g, dp, s, n, g');
    if g[n].kind == Dir {
      EmptyDirLinks(g, dp, s, n);
      UnlinkDirKeeps(g, dp, s, n, g');
    } else {
      UnlinkKeeps(g, dp, s, n, g');
    }
    assert IsRemoved(g, dp, name, g', s);
  }

  // ---------------------------------------------------------------- runs

  /** A call that got through: the name in slot s of dp is added or taken away, or
      an inode without links is given up. */
  datatype Call =
    | LinkCall(dp: nat, s: nat, e: Entry)
    | CreateCall(dp: nat, s: nat, e: Entry, kind: Kind)
    | UnlinkCall(dp: nat, s: nat, n: nat)
    | ReclaimCall(n: nat)

  ghost predicate Next(g: Nodes, call: Call, g': Nodes) {
    match call
    case LinkCall(dp, s, e) => Linking(g, dp, s, e, g')
    case CreateCall(dp, s, e, kind) => Creating(g, dp, s, e, kind, g')
    case UnlinkCall(dp, s, n) => Unlinking(g, dp, s, n, g')
    case ReclaimCall(n) => n in g && g[n].nlink == 0 && g' == g[n := Node(Unused, 0, [])]
  }

  /** A name is added in a directory that has links itself, and the count that
      goes up fits a short. */
  predicate Proper(g: Nodes, call: Call) {
    match call
    case LinkCall(dp, _, e) => Linked(g, dp) && e.inum in g && g[e.inum].nlink < MAXLINK
    case CreateCall(dp, _, _, kind) => Linked(g, dp) && (kind == Dir ==> g[dp].nlink < MAXLINK)
    case _ => true
  }

  ghost predicate IsRun(states: seq<Nodes>, calls: seq<Call>) {
    && |states| == |calls| + 1 && Valid(states[0])
    && forall i :: 0 <= i < |calls| ==> Next(states[i], calls[i], states[i + 1])
  }

  lemma CallKeeps(g: Nodes, call: Call, g': Nodes)
    requires Valid(g) && Next(g, call, g')
    ensures Valid(g') <==> Proper(g, call)
  {
    match call
    case LinkCall(dp, s, e) => LinkDone(g, dp, s, e, g');
    case CreateCall(dp, s, e, kind) => CreateDone(g, dp, s, e, kind, g');
    case UnlinkCall(dp, s, n) => UnlinkDone(g, dp, s, n, g[dp].entries[s].name, g');
    case ReclaimCall(n) =>
      assert NodeOk(n, g[n]);
      ChangeKeeps(g, n, Node(Unused, 0, []), g');
  }

  /** Over every run the counts are right up to the first call that is not proper,
      and wrong right after it. */
  lemma {:induction false} RunCounts(states: seq<Nodes>, calls: seq<Call>, i: nat)
    requires IsRun(states, calls) && i < |states|
    requires forall k :: 0 <= k < i ==> Proper(states[k], calls[k])
    ensures Valid(states[i])
    ensures i < |calls| ==> (Valid(states[i + 1]) <==> Proper(states[i], calls[i]))
  {
    if 0 < i {
      RunCounts(states, calls, i - 1);
    }
    if i < |calls| {
      CallKeeps(states[i], calls[i], states[i + 1]);
    }
  }

  ghost predicate AllUnique(g: Nodes) {
    forall d :: d in g ==> Unique(g[d].entries)
  }

  lemma CallKeepsUnique(g: Nodes, call: Call, g': Nodes)
    requires AllUnique(g) && Next(g, call, g')
    ensures AllUnique(g')
  {
    match call
    case LinkCall(dp, s, e) => PutUnique(g[dp].entries, s, e);
    case CreateCall(dp, s, e, kind) => PutUnique(g[dp].entries, s, e);
    case UnlinkCall(dp, s, n) =>
    case ReclaimCall(n) =>
  }

  /** Over every run no directory ever has a name twice, proper or not. */
  lemma {:induction false} RunUnique(states: seq<Nodes>, calls: seq<Call>, i: nat)
    requires IsRun(states, calls) && AllUnique(states[0]) && i < |states|
    ensures AllUnique(states[i])
  {
    if 0 < i {
      RunUnique(states, calls, i - 1);
      CallKeepsUnique(states[i - 1], calls[i - 1], states[i]);
    }
  }
}
