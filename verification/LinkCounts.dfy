/**
  The directory graph of sysfile.c: inodes with link counts and directories with
  slots.  The count of an inode is the number of slots that name it, in linked
  directories, other than their first slot ".".
*/
module LinkCounts {
  import opened Options

  const ROOT: nat := 1

  /** nlink is a short. */
  const MAXLINK: nat := 32767

  datatype Kind = Unused | Dir | File | Dev

  /** Anything in use but a directory. */
  predicate IsLeaf(kind: Kind) {
    kind == File || kind == Dev
  }

  /** A directory slot; inum 0 means it is empty. */
  datatype Entry = Entry(inum: nat, name: string)

  datatype Node = Node(kind: Kind, nlink: int, entries: seq<Entry>)

  type Nodes = map<nat, Node>

  predicate Linked(g: Nodes, d: nat) {
    d in g && g[d].kind == Dir && 1 <= g[d].nlink
  }

  /** Slot s of directory d names inode n. */
  predicate Names(g: Nodes, d: nat, s: nat, n: nat) {
    Linked(g, d) && s < |g[d].entries| && g[d].entries[s].inum == n
  }

  /** The slots that count for n. */
  ghost function Refs(g: Nodes, n: nat): set<(nat, nat)> {
    set d, s | d in g && 0 < s < |g[d].entries| && Names(g, d, s, n) :: (d, s)
  }

  // ---------------------------------------------------------------- invariant

  /** Slots 0 and 1 of a directory are "." and "..", and no others are. */
  predicate DotsOk(d: nat, entries: seq<Entry>) {
    && 2 <= |entries| && entries[0] == Entry(d, ".") && entries[1].name == ".." && entries[1].inum != 0
    && (forall s :: 2 <= s < |entries| && entries[s].inum != 0 ==> entries[s].name != "." && entries[s].name != "..")
  }

  /** A directory, an inode that is not in use, or a file. */
  ghost predicate NodeOk(d: nat, node: Node) {
    && 0 < d && 0 <= node.nlink <= MAXLINK
    && (node.kind == Dir ==> DotsOk(d, node.entries))
    && (node.kind == Dir && node.nlink == 0 ==> forall s :: 2 <= s < |node.entries| ==> node.entries[s].inum == 0)
    && (node.kind != Dir ==> node.entries == [])
    && (node.kind == Unused ==> node.nlink == 0)
  }

  ghost predicate NodesOk(g: Nodes) {
    && (forall d :: d in g ==> NodeOk(d, g[d]))
    && Linked(g, ROOT) && g[ROOT].entries[1].inum == ROOT
  }

  /** The link count of every inode is the number of slots that name it. */
  ghost predicate Counted(g: Nodes) {
    forall n {:trigger CountOk(g, n, g[n].nlink)} :: n in g ==> CountOk(g, n, g[n].nlink)
  }

  ghost predicate CountOk(g: Nodes, n: nat, nlink: int) {
    nlink == |Refs(g, n)|
  }

  /** A slot behind the first two names an inode in use; the ".." of a directory
      named there is the directory with the slot. */
  ghost predicate HolderOk(g: Nodes, d: nat, s: nat, n: nat) {
    && n in g && g[n].kind != Unused
    && (g[n].kind == Dir ==> n != ROOT && 1 < |g[n].entries| && g[n].entries[1].inum == d)
  }

  ghost predicate Held(g: Nodes) {
    forall d, s, n {:trigger Names(g, d, s, n)} ::
      d in g && 2 <= s && 0 < n && Names(g, d, s, n) ==> HolderOk(g, d, s, n)
  }

  /** A directory is named by at most one slot behind the first two of another. */
  ghost predicate Single(g: Nodes) {
    forall d, s, t, n {:trigger Names(g, d, s, n), Names(g, d, t, n)} ::
      (d in g && 2 <= s && 2 <= t && 0 < n && n in g && g[n].kind == Dir &&
       Names(g, d, s, n) && Names(g, d, t, n)) ==> s == t
  }

  /** Every linked directory but the root has a slot in the directory that its
      ".." names. */
  ghost predicate Rooted(g: Nodes) {
    forall n {:trigger HasSlot(g, g[n].entries[1].inum, n)} ::
      n in g && Linked(g, n) && n != ROOT && 1 < |g[n].entries| ==> HasSlot(g, g[n].entries[1].inum, n)
  }

  ghost predicate HasSlot(g: Nodes, d: nat, n: nat) {
    exists s :: 2 <= s && Names(g, d, s, n)
  }

  ghost predicate Valid(g: Nodes) {
    NodesOk(g) && Counted(g) && Held(g) && Single(g) && Rooted(g)
  }

  // ---------------------------------------------------------------- counting slots

  lemma RefsSame(g: Nodes, g': Nodes, m: nat)
    requires g'.Keys == g.Keys
    requires forall d: nat, t: nat {:trigger Names(g', d, t, m)} {:trigger Names(g, d, t, m)} ::
      0 < t ==> (Names(g', d, t, m) <==> Names(g, d, t, m))
    ensures Refs(g', m) == Refs(g, m)
  {
    forall d: nat, t: nat ensures (d, t) in Refs(g', m) <==> (d, t) in Refs(g, m) {
      assert Names(g', d, t, m) ==> Names(g, d, t, m) || t == 0;
    }
  }

  /** One more slot names m. */
  lemma RefsGain(g: Nodes, g': Nodes, m: nat, d0: nat, t0: nat)
    requires g'.Keys == g.Keys && 0 < t0 && !Names(g, d0, t0, m) && Names(g', d0, t0, m)
    requires forall d: nat, t: nat {:trigger Names(g', d, t, m)} {:trigger Names(g, d, t, m)} ::
      0 < t && !(d == d0 && t == t0) ==> (Names(g', d, t, m) <==> Names(g, d, t, m))
    ensures |Refs(g', m)| == |Refs(g, m)| + 1
  {
    forall d: nat, t: nat ensures (d, t) in Refs(g', m) <==> (d, t) in Refs(g, m) + {(d0, t0)} {
      assert Names(g', d, t, m) ==> Names(g, d, t, m) || t == 0 || (d == d0 && t == t0);
    }
    assert Refs(g', m) == Refs(g, m) + {(d0, t0)};
  }

  lemma NoRefs(g: Nodes, n: nat, d: nat, s: nat)
    requires |Refs(g, n)| == 0 && 0 < s
    ensures !Names(g, d, s, n)
  {
    assert (d, s) !in Refs(g, n);
  }

  // ---------------------------------------------------------------- adding a name

  /** Slot s of dp, empty or just behind the last, now holds e. */
  ghost predicate Added(g: Nodes, dp: nat, s: nat, e: Entry, entries: seq<Entry>) {
    && Linked(g, dp) && 2 <= s <= |g[dp].entries| && (s < |g[dp].entries| ==> g[dp].entries[s].inum == 0)
    && entries == (if s < |g[dp].entries| then g[dp].entries[s := e] else g[dp].entries + [e])
    && 0 < e.inum && e.name != "." && e.name != ".."
  }

  /** Slot s of dp is the only one of an old directory that differs. */
  lemma AddedNames(g: Nodes, dp: nat, s: nat, e: Entry, g': Nodes, d: nat, t: nat, m: nat)
    requires dp in g' && Added(g, dp, s, e, g'[dp].entries) && Linked(g', dp)
    requires d in g && d in g' && (d != dp ==> g'[d].entries == g[d].entries && (Linked(g', d) <==> Linked(g, d)))
    requires 0 < m
    ensures Names(g', d, t, m) <==> if d == dp && t == s then m == e.inum else Names(g, d, t, m)
    ensures d == dp && t == s ==> !Names(g, d, t, m)
  {
  }

  /** link(): a new name for a file. */
  ghost predicate LinksFile(g: Nodes, dp: nat, s: nat, e: Entry, g': Nodes) {
    && dp in g' && Added(g, dp, s, e, g'[dp].entries) && e.inum in g && IsLeaf(g[e.inum].kind)
    && g[e.inum].nlink < MAXLINK
    && g' == g[e.inum := g[e.inum].(nlink := g[e.inum].nlink + 1)][dp := g[dp].(entries := g'[dp].entries)]
  }

  lemma LinkNames(g: Nodes, dp: nat, s: nat, e: Entry, g': Nodes, d: nat, t: nat, m: nat)
    requires NodesOk(g) && LinksFile(g, dp, s, e, g') && 0 < m
    ensures Names(g', d, t, m) <==> if d == dp && t == s then m == e.inum else Names(g, d, t, m)
    ensures d == dp && t == s ==> !Names(g, d, t, m)
  {
    if d in g {
      AddedNames(g, dp, s, e, g', d, t, m);
    }
  }

  lemma LinkKeepsNodes(g: Nodes, dp: nat, s: nat, e: Entry, g': Nodes)
    requires NodesOk(g) && LinksFile(g, dp, s, e, g')
    ensures NodesOk(g')
  {
    forall d | d in g' ensures NodeOk(d, g'[d]) {
      assert NodeOk(d, g[d]) && NodeOk(dp, g[dp]);
    }
  }

  lemma LinkCount(g: Nodes, dp: nat, s: nat, e: Entry, g': Nodes, m: nat)
    requires NodesOk(g) && LinksFile(g, dp, s, e, g') && 0 < m && m in g
    ensures |Refs(g', m)| == |Refs(g, m)| + if m == e.inum then 1 else 0
  {
    forall d: nat, t: nat
      ensures Names(g', d, t, m) <==> if d == dp && t == s then m == e.inum else Names(g, d, t, m)
      ensures d == dp && t == s ==> !Names(g, d, t, m)
    {
      LinkNames(g, dp, s, e, g', d, t, m);
    }
    if m == e.inum {
      RefsGain(g, g', m, dp, s);
    } else {
      RefsSame(g, g', m);
    }
  }

  lemma LinkCountOk(g: Nodes, dp: nat, s: nat, e: Entry, g': Nodes, m: nat)
    requires NodesOk(g) && LinksFile(g, dp, s, e, g') && 0 < m && m in g && CountOk(g, m, g[m].nlink)
    ensures CountOk(g', m, g'[m].nlink)
  {
    LinkCount(g, dp, s, e, g', m);
  }

  lemma LinkKeepsCounts(g: Nodes, dp: nat, s: nat, e: Entry, g': Nodes)
    requires NodesOk(g) && Counted(g) && LinksFile(g, dp, s, e, g')
    ensures Counted(g')
  {
    forall m | m in g' ensures CountOk(g', m, g'[m].nlink) {
      assert NodeOk(m, g[m]);
      LinkCountOk(g, dp, s, e, g', m);
    }
  }

  lemma LinkKeepsHeld(g: Nodes, dp: nat, s: nat, e: Entry, g': Nodes)
    requires NodesOk(g) && Held(g) && Single(g) && LinksFile(g, dp, s, e, g')
    ensures Held(g') && Single(g')
  {
    forall d: nat, t: nat, m: nat | d in g' && 2 <= t && 0 < m && Names(g', d, t, m) ensures HolderOk(g', d, t, m) {
      LinkNames(g, dp, s, e, g', d, t, m);
    }
    forall d: nat, t: nat, u: nat, m: nat
      | d in g' && 2 <= t && 2 <= u && 0 < m && m in g' && g'[m].kind == Dir && Names(g', d, t, m) && Names(g', d, u, m)
      ensures t == u
    {
      LinkNames(g, dp, s, e, g', d, t, m);
      LinkNames(g, dp, s, e, g', d, u, m);
    }
  }

  lemma LinkKeepsRooted(g: Nodes, dp: nat, s: nat, e: Entry, g': Nodes)
    requires NodesOk(g) && Rooted(g) && LinksFile(g, dp, s, e, g')
    ensures Rooted(g')
  {
    forall n | n in g' && Linked(g', n) && n != ROOT && 1 < |g'[n].entries|
      ensures HasSlot(g', g'[n].entries[1].inum, n)
    {
      assert NodeOk(n, g[n]);
      assert HasSlot(g, g[n].entries[1].inum, n);
      var t :| 2 <= t && Names(g, g[n].entries[1].inum, t, n);
      LinkNames(g, dp, s, e, g', g[n].entries[1].inum, t, n);
      assert Names(g', g'[n].entries[1].inum, t, n);
    }
  }

  lemma LinkKeeps(g: Nodes, dp: nat, s: nat, e: Entry, g': Nodes)
    requires Valid(g) && LinksFile(g, dp, s, e, g')
    ensures Valid(g')
  {
    LinkKeepsNodes(g, dp, s, e, g');
    LinkKeepsCounts(g, dp, s, e, g');
    LinkKeepsHeld(g, dp, s, e, g');
    LinkKeepsRooted(g, dp, s, e, g');
  }

  // ---------------------------------------------------------------- inodes without links

  /** ialloc(), the first lines of create(), and the end of iput(): an inode that no
      slot names changes its kind. */
  ghost predicate Changes(g: Nodes, n: nat, node: Node, g': Nodes) {
    && n in g && g[n].nlink == 0 && node.nlink == 0 && NodeOk(n, node) && g' == g[n := node]
  }

  lemma ChangeNames(g: Nodes, n: nat, node: Node, g': Nodes, d: nat, t: nat, m: nat)
    requires Changes(g, n, node, g')
    ensures Names(g', d, t, m) <==> Names(g, d, t, m)
  {
  }

  lemma ChangeCountOk(g: Nodes, n: nat, node: Node, g': Nodes, m: nat)
    requires Changes(g, n, node, g') && m in g && CountOk(g, m, g[m].nlink)
    ensures CountOk(g', m, g'[m].nlink)
  {
    forall d: nat, t: nat ensures Names(g', d, t, m) <==> Names(g, d, t, m) {
      ChangeNames(g, n, node, g', d, t, m);
    }
    RefsSame(g, g', m);
  }

  lemma ChangeKeepsCounts(g: Nodes, n: nat, node: Node, g': Nodes)
    requires NodesOk(g) && Counted(g) && Changes(g, n, node, g')
    ensures Counted(g')
  {
    forall m | m in g' ensures CountOk(g', m, g'[m].nlink) {
      ChangeCountOk(g, n, node, g', m);
    }
  }

  lemma ChangeKeepsNodes(g: Nodes, n: nat, node: Node, g': Nodes)
    requires NodesOk(g) && Changes(g, n, node, g')
    ensures NodesOk(g')
  {
    forall m | m in g' ensures NodeOk(m, g'[m]) {
      assert NodeOk(m, g[m]);
    }
  }

  lemma Unnamed(g: Nodes, n: nat, d: nat, t: nat)
    requires n in g && g[n].nlink == 0 && CountOk(g, n, g[n].nlink) && 0 < t
    ensures !Names(g, d, t, n)
  {
    NoRefs(g, n, d, t);
  }

  lemma ChangeKeepsHeld(g: Nodes, n: nat, node: Node, g': Nodes)
    requires Held(g) && Single(g) && Changes(g, n, node, g') && CountOk(g, n, g[n].nlink)
    ensures Held(g') && Single(g')
  {
    forall d: nat, t: nat, m: nat | d in g' && 2 <= t && 0 < m && Names(g', d, t, m) ensures HolderOk(g', d, t, m) {
      ChangeNames(g, n, node, g', d, t, m);
      Unnamed(g, n, d, t);
    }
    forall d: nat, t: nat, u: nat, m: nat
      | d in g' && 2 <= t && 2 <= u && 0 < m && m in g' && g'[m].kind == Dir && Names(g', d, t, m) && Names(g', d, u, m)
      ensures t == u
    {
      ChangeNames(g, n, node, g', d, t, m);
      ChangeNames(g, n, node, g', d, u, m);
      Unnamed(g, n, d, t);
    }
  }

  lemma ChangeKeeps(g: Nodes, n: nat, node: Node, g': Nodes)
    requires Valid(g) && Changes(g, n, node, g')
    ensures Valid(g')
  {
    ChangeKeepsNodes(g, n, node, g');
    ChangeKeepsCounts(g, n, node, g');
    ChangeKeepsHeld(g, n, node, g');
    ChangeKeepsRooted(g, n, node, g');
  }

  lemma ChangeKeepsRooted(g: Nodes, n: nat, node: Node, g': Nodes)
    requires NodesOk(g) && Rooted(g) && Changes(g, n, node, g')
    ensures Rooted(g')
  {
    forall m | m in g' && Linked(g', m) && m != ROOT && 1 < |g'[m].entries|
      ensures HasSlot(g', g'[m].entries[1].inum, m)
    {
      assert NodeOk(m, g[m]) && g'[m] == g[m];
      assert HasSlot(g, g[m].entries[1].inum, m);
      var t :| 2 <= t && Names(g, g[m].entries[1].inum, t, m);
      assert Names(g', g[m].entries[1].inum, t, m);
    }
  }

  // ---------------------------------------------------------------- removing a file's name

  /** unlink() of a file: slot s of dp is zeroed and the count goes down. */
  ghost predicate UnlinksFile(g: Nodes, dp: nat, s: nat, n: nat, g': Nodes) {
    && 2 <= s && Names(g, dp, s, n) && n in g && IsLeaf(g[n].kind)
    && g' == g[dp := g[dp].(entries := g[dp].entries[s := Entry(0, "")])][n := g[n].(nlink := g[n].nlink - 1)]
  }

  lemma UnlinkNames(g: Nodes, dp: nat, s: nat, n: nat, g': Nodes, d: nat, t: nat, m: nat)
    requires NodesOk(g) && UnlinksFile(g, dp, s, n, g') && 0 < m
    ensures Names(g', d, t, m) <==> Names(g, d, t, m) && !(d == dp && t == s)
    ensures d == dp && t == s ==> (Names(g, d, t, m) <==> m == n)
  {
  }

  lemma UnlinkCount(g: Nodes, dp: nat, s: nat, n: nat, g': Nodes, m: nat)
    requires NodesOk(g) && UnlinksFile(g, dp, s, n, g') && 0 < m && m in g
    ensures |Refs(g', m)| == |Refs(g, m)| - if m == n then 1 else 0
  {
    forall d: nat, t: nat
      ensures Names(g', d, t, m) <==> Names(g, d, t, m) && !(d == dp && t == s)
      ensures d == dp && t == s ==> (Names(g, d, t, m) <==> m == n)
    {
      UnlinkNames(g, dp, s, n, g', d, t, m);
    }
    if m == n {
      RefsGain(g', g, m, dp, s);
    } else {
      RefsSame(g, g', m);
    }
  }

  lemma UnlinkKeepsNodes(g: Nodes, dp: nat, s: nat, n: nat, g': Nodes)
    requires NodesOk(g) && UnlinksFile(g, dp, s, n, g') && 1 <= g[n].nlink
    ensures NodesOk(g')
  {
    forall d | d in g' ensures NodeOk(d, g'[d]) {
      assert NodeOk(d, g[d]);
    }
  }

  lemma UnlinkCountOk(g: Nodes, dp: nat, s: nat, n: nat, g': Nodes, m: nat)
    requires NodesOk(g) && UnlinksFile(g, dp, s, n, g') && 0 < m && m in g && CountOk(g, m, g[m].nlink)
    ensures CountOk(g', m, g'[m].nlink)
  {
    UnlinkCount(g, dp, s, n, g', m);
  }

  lemma UnlinkKeepsCounts(g: Nodes, dp: nat, s: nat, n: nat, g': Nodes)
    requires NodesOk(g) && Counted(g) && UnlinksFile(g, dp, s, n, g')
    ensures Counted(g')
  {
    forall m | m in g' ensures CountOk(g', m, g'[m].nlink) {
      assert NodeOk(m, g[m]);
      UnlinkCountOk(g, dp, s, n, g', m);
    }
  }

  lemma UnlinkKeepsHeld(g: Nodes, dp: nat, s: nat, n: nat, g': Nodes)
    requires NodesOk(g) && Held(g) && Single(g) && UnlinksFile(g, dp, s, n, g')
    ensures Held(g') && Single(g')
  {
    forall d: nat, t: nat, m: nat | d in g' && 2 <= t && 0 < m && Names(g', d, t, m) ensures HolderOk(g', d, t, m) {
      UnlinkNames(g, dp, s, n, g', d, t, m);
    }
    forall d: nat, t: nat, u: nat, m: nat
      | d in g' && 2 <= t && 2 <= u && 0 < m && m in g' && g'[m].kind == Dir && Names(g', d, t, m) && Names(g', d, u, m)
      ensures t == u
    {
      UnlinkNames(g, dp, s, n, g', d, t, m);
      UnlinkNames(g, dp, s, n, g', d, u, m);
    }
  }

  lemma UnlinkKeeps(g: Nodes, dp: nat, s: nat, n: nat, g': Nodes)
    requires Valid(g) && UnlinksFile(g, dp, s, n, g') && 1 <= g[n].nlink
    ensures Valid(g')
  {
    UnlinkKeepsNodes(g, dp, s, n, g');
    UnlinkKeepsCounts(g, dp, s, n, g');
    UnlinkKeepsHeld(g, dp, s, n, g');
    UnlinkKeepsRooted(g, dp, s, n, g');
  }

  lemma UnlinkKeepsRooted(g: Nodes, dp: nat, s: nat, n: nat, g': Nodes)
    requires NodesOk(g) && Rooted(g) && UnlinksFile(g, dp, s, n, g')
    ensures Rooted(g')
  {
    forall m | m in g' && Linked(g', m) && m != ROOT && 1 < |g'[m].entries|
      ensures HasSlot(g', g'[m].entries[1].inum, m)
    {
      assert NodeOk(m, g[m]);
      assert HasSlot(g, g[m].entries[1].inum, m);
      var t :| 2 <= t && Names(g, g[m].entries[1].inum, t, m);
      UnlinkNames(g, dp, s, n, g', g[m].entries[1].inum, t, m);
      assert Names(g', g'[m].entries[1].inum, t, m);
    }
  }

  // ---------------------------------------------------------------- making and removing a directory

  /** Directory n, with nothing but its dots, is not linked in g and linked under dp
      in g': what mkdir() adds at the end and what unlink() takes away. */
  ghost predicate LinksDir(g: Nodes, dp: nat, s: nat, e: Entry, g': Nodes) {
    && dp in g' && Added(g, dp, s, e, g'[dp].entries) && e.inum in g && e.inum != dp && e.inum != ROOT
    && g[dp].nlink < MAXLINK
    && g[e.inum].kind == Dir && g[e.inum].nlink == 0 && DotsOk(e.inum, g[e.inum].entries)
    && g[e.inum].entries[1].inum == dp
    && (forall t :: 2 <= t < |g[e.inum].entries| ==> g[e.inum].entries[t].inum == 0)
    && g' == g[e.inum := g[e.inum].(nlink := 1)][dp := g[dp].(nlink := g[dp].nlink + 1, entries := g'[dp].entries)]
  }

  lemma LinkDirNames(g: Nodes, dp: nat, s: nat, e: Entry, g': Nodes, d: nat, t: nat, m: nat)
    requires LinksDir(g, dp, s, e, g') && 0 < m && 0 < t
    ensures Names(g', d, t, m) <==>
      if d == dp && t == s then m == e.inum else if d == e.inum then t == 1 && m == dp else Names(g, d, t, m)
    ensures (d == dp && t == s) || d == e.inum ==> !Names(g, d, t, m)
  {
  }

  lemma LinkDirCountOk(g: Nodes, dp: nat, s: nat, e: Entry, g': Nodes, m: nat)
    requires LinksDir(g, dp, s, e, g') && 0 < m && m in g && CountOk(g, m, g[m].nlink)
    ensures CountOk(g', m, g'[m].nlink)
  {
    forall d: nat, t: nat | 0 < t
      ensures Names(g', d, t, m) <==>
        if d == dp && t == s then m == e.inum else if d == e.inum then t == 1 && m == dp else Names(g, d, t, m)
      ensures (d == dp && t == s) || d == e.inum ==> !Names(g, d, t, m)
    {
      LinkDirNames(g, dp, s, e, g', d, t, m);
    }
    if m == e.inum {
      RefsGain(g, g', m, dp, s);
    } else if m == dp {
      RefsGain(g, g', m, e.inum, 1);
    } else {
      RefsSame(g, g', m);
    }
  }

  lemma LinkDirKeepsCounts(g: Nodes, dp: nat, s: nat, e: Entry, g': Nodes)
    requires NodesOk(g) && Counted(g) && LinksDir(g, dp, s, e, g')
    ensures Counted(g')
  {
    forall m | m in g' ensures CountOk(g', m, g'[m].nlink) {
      assert NodeOk(m, g[m]);
      LinkDirCountOk(g, dp, s, e, g', m);
    }
  }

  lemma LinkDirKeepsNodes(g: Nodes, dp: nat, s: nat, e: Entry, g': Nodes)
    requires NodesOk(g) && LinksDir(g, dp, s, e, g')
    ensures NodesOk(g')
  {
    forall d | d in g' ensures NodeOk(d, g'[d]) {
      assert NodeOk(d, g[d]);
    }
  }

  lemma LinkDirKeepsHeld(g: Nodes, dp: nat, s: nat, e: Entry, g': Nodes)
    requires NodesOk(g) && Held(g) && Single(g) && LinksDir(g, dp, s, e, g') && CountOk(g, e.inum, 0)
    ensures Held(g') && Single(g')
  {
    forall d: nat, t: nat, m: nat | d in g' && 2 <= t && 0 < m && Names(g', d, t, m) ensures HolderOk(g', d, t, m) {
      LinkDirNames(g, dp, s, e, g', d, t, m);
    }
    forall d: nat, t: nat, u: nat, m: nat
      | d in g' && 2 <= t && 2 <= u && 0 < m && m in g' && g'[m].kind == Dir && Names(g', d, t, m) && Names(g', d, u, m)
      ensures t == u
    {
      LinkDirNames(g, dp, s, e, g', d, t, m);
      LinkDirNames(g, dp, s, e, g', d, u, m);
      Unnamed(g, e.inum, d, t);
      Unnamed(g, e.inum, d, u);
    }
  }

  lemma LinkDirKeepsRooted(g: Nodes, dp: nat, s: nat, e: Entry, g': Nodes)
    requires NodesOk(g) && Rooted(g) && LinksDir(g, dp, s, e, g')
    ensures Rooted(g')
  {
    forall n | n in g' && Linked(g', n) && n != ROOT && 1 < |g'[n].entries|
      ensures HasSlot(g', g'[n].entries[1].inum, n)
    {
      assert NodeOk(n, g[n]);
      if n == e.inum {
        LinkDirNames(g, dp, s, e, g', dp, s, n);
        assert Names(g', dp, s, n);
      } else {
        assert HasSlot(g, g[n].entries[1].inum, n);
        var t :| 2 <= t && Names(g, g[n].entries[1].inum, t, n);
        LinkDirNames(g, dp, s, e, g', g[n].entries[1].inum, t, n);
        assert Names(g', g'[n].entries[1].inum, t, n);
      }
    }
  }

  lemma LinkDirKeeps(g: Nodes, dp: nat, s: nat, e: Entry, g': Nodes)
    requires Valid(g) && LinksDir(g, dp, s, e, g')
    ensures Valid(g')
  {
    LinkDirKeepsNodes(g, dp, s, e, g');
    LinkDirKeepsCounts(g, dp, s, e, g');
    LinkDirKeepsHeld(g, dp, s, e, g');
    LinkDirKeepsRooted(g, dp, s, e, g');
  }

  /** unlink() of a directory whose slots behind the first two are empty. */
  ghost predicate UnlinksDir(g: Nodes, dp: nat, s: nat, n: nat, g': Nodes) {
    && 2 <= s && Names(g, dp, s, n) && 0 < n && n in g && n != dp && g[n].kind == Dir
    && (forall t :: 2 <= t < |g[n].entries| ==> g[n].entries[t].inum == 0)
    && g' == g[dp := g[dp].(nlink := g[dp].nlink - 1, entries := g[dp].entries[s := Entry(0, "")])]
                [n := g[n].(nlink := g[n].nlink - 1)]
  }

  /** Only the slot in dp names an empty directory. */
  lemma OnlyName(g: Nodes, dp: nat, s: nat, n: nat, d: nat, t: nat)
    requires NodesOk(g) && Held(g) && Single(g) && Rooted(g) && 2 <= s && Names(g, dp, s, n) && 0 < n && n in g
    requires g[n].kind == Dir
    requires (forall u :: 2 <= u < |g[n].entries| ==> g[n].entries[u].inum == 0) && 0 < t && Names(g, d, t, n)
    ensures d == dp && t == s
  {
    assert HolderOk(g, dp, s, n);
    assert NodeOk(d, g[d]);
    assert 2 <= t ==> HolderOk(g, d, t, n);
    assert d != ROOT ==> HasSlot(g, g[d].entries[1].inum, d);
  }

  /** An empty directory has one link, and the one it is in has two. */
  lemma EmptyDirLinks(g: Nodes, dp: nat, s: nat, n: nat)
    requires Valid(g) && 2 <= s && Names(g, dp, s, n) && 0 < n && n in g && n != dp && g[n].kind == Dir
    requires forall u :: 2 <= u < |g[n].entries| ==> g[n].entries[u].inum == 0
    ensures g[n].nlink == 1 && 2 <= g[dp].nlink && g[n].entries[1].inum == dp && n != ROOT
  {
    assert HolderOk(g, dp, s, n) && NodeOk(n, g[n]);
    OneLink(g, dp, s, n);
    TwoLinks(g, dp, n);
  }

  lemma OneLink(g: Nodes, dp: nat, s: nat, n: nat)
    requires NodesOk(g) && Held(g) && Single(g) && Rooted(g) && 2 <= s && Names(g, dp, s, n) && 0 < n && n in g
    requires g[n].kind == Dir
    requires (forall u :: 2 <= u < |g[n].entries| ==> g[n].entries[u].inum == 0) && CountOk(g, n, g[n].nlink)
    ensures g[n].nlink == 1
  {
    forall d: nat, t: nat | (d, t) in Refs(g, n) ensures (d, t) == (dp, s) {
      OnlyName(g, dp, s, n, d, t);
    }
    assert (dp, s) in Refs(g, n);
    assert Refs(g, n) == {(dp, s)};
  }

  lemma TwoLinks(g: Nodes, dp: nat, n: nat)
    requires NodesOk(g) && Rooted(g) && Linked(g, dp) && Linked(g, n) && n != dp && n != ROOT && Names(g, n, 1, dp)
    requires CountOk(g, dp, g[dp].nlink)
    ensures 2 <= g[dp].nlink
  {
    assert NodeOk(dp, g[dp]);
    var d, t := ROOT, 1;
    if dp != ROOT {
      assert HasSlot(g, g[dp].entries[1].inum, dp);
      d := g[dp].entries[1].inum;
      t :| 2 <= t && Names(g, d, t, dp);
    }
    assert (d, t) in Refs(g, dp) && (n, 1) in Refs(g, dp);
    AtLeastTwo(Refs(g, dp), (d, t), (n, 1));
  }

  lemma AtLeastTwo(a: set<(nat, nat)>, x: (nat, nat), y: (nat, nat))
    requires x in a && y in a && x != y
    ensures 2 <= |a|
  {
    assert |a - {x}| == |a| - 1 && y in a - {x};
  }

  lemma UnlinkDirNames(g: Nodes, dp: nat, s: nat, n: nat, g': Nodes, d: nat, t: nat, m: nat)
    requires UnlinksDir(g, dp, s, n, g') && g[n].nlink == 1 && 2 <= g[dp].nlink && DotsOk(n, g[n].entries)
    requires g[n].entries[1].inum == dp && 0 < m && 0 < t
    ensures Names(g', d, t, m) <==> Names(g, d, t, m) && !(d == dp && t == s) && d != n
    ensures d == dp && t == s ==> (Names(g, d, t, m) <==> m == n)
    ensures d == n ==> (Names(g, d, t, m) <==> t == 1 && m == dp)
  {
  }

  lemma UnlinkDirCountOk(g: Nodes, dp: nat, s: nat, n: nat, g': Nodes, m: nat)
    requires UnlinksDir(g, dp, s, n, g') && g[n].nlink == 1 && 2 <= g[dp].nlink && DotsOk(n, g[n].entries)
    requires g[n].entries[1].inum == dp
    requires 0 < m && m in g && CountOk(g, m, g[m].nlink)
    ensures CountOk(g', m, g'[m].nlink)
  {
    forall d: nat, t: nat | 0 < t
      ensures Names(g', d, t, m) <==> Names(g, d, t, m) && !(d == dp && t == s) && d != n
      ensures d == dp && t == s ==> (Names(g, d, t, m) <==> m == n)
      ensures d == n ==> (Names(g, d, t, m) <==> t == 1 && m == dp)
    {
      UnlinkDirNames(g, dp, s, n, g', d, t, m);
    }
    if m == n {
      RefsGain(g', g, m, dp, s);
    } else if m == dp {
      RefsGain(g', g, m, n, 1);
    } else {
      RefsSame(g, g', m);
    }
  }

  lemma UnlinkDirKeepsCounts(g: Nodes, dp: nat, s: nat, n: nat, g': Nodes)
    requires NodesOk(g) && Counted(g) && UnlinksDir(g, dp, s, n, g') && g[n].nlink == 1 && 2 <= g[dp].nlink
    requires g[n].entries[1].inum == dp
    ensures Counted(g')
  {
    forall m | m in g' ensures CountOk(g', m, g'[m].nlink) {
      assert NodeOk(m, g[m]) && NodeOk(n, g[n]);
      UnlinkDirCountOk(g, dp, s, n, g', m);
    }
  }

  lemma UnlinkDirKeepsNodes(g: Nodes, dp: nat, s: nat, n: nat, g': Nodes)
    requires NodesOk(g) && UnlinksDir(g, dp, s, n, g') && g[n].nlink == 1 && 2 <= g[dp].nlink && n != ROOT
    ensures NodesOk(g')
  {
    forall d | d in g' ensures NodeOk(d, g'[d]) {
      assert NodeOk(d, g[d]);
    }
  }

  lemma UnlinkDirKeepsHeld(g: Nodes, dp: nat, s: nat, n: nat, g': Nodes)
    requires NodesOk(g) && Held(g) && Single(g) && UnlinksDir(g, dp, s, n, g') && g[n].nlink == 1 && 2 <= g[dp].nlink
    requires g[n].entries[1].inum == dp
    ensures Held(g') && Single(g')
  {
    assert NodeOk(n, g[n]);
    forall d: nat, t: nat, m: nat | d in g' && 2 <= t && 0 < m && Names(g', d, t, m) ensures HolderOk(g', d, t, m) {
      UnlinkDirNames(g, dp, s, n, g', d, t, m);
    }
    forall d: nat, t: nat, u: nat, m: nat
      | d in g' && 2 <= t && 2 <= u && 0 < m && m in g' && g'[m].kind == Dir && Names(g', d, t, m) && Names(g', d, u, m)
      ensures t == u
    {
      UnlinkDirNames(g, dp, s, n, g', d, t, m);
      UnlinkDirNames(g, dp, s, n, g', d, u, m);
    }
  }

  lemma UnlinkDirKeepsRooted(g: Nodes, dp: nat, s: nat, n: nat, g': Nodes)
    requires NodesOk(g) && Rooted(g) && UnlinksDir(g, dp, s, n, g') && g[n].nlink == 1 && 2 <= g[dp].nlink
    requires g[n].entries[1].inum == dp
    ensures Rooted(g')
  {
    assert NodeOk(n, g[n]);
    forall m | m in g' && Linked(g', m) && m != ROOT && 1 < |g'[m].entries|
      ensures HasSlot(g', g'[m].entries[1].inum, m)
    {
      assert NodeOk(m, g[m]) && m != n;
      assert HasSlot(g, g[m].entries[1].inum, m);
      var t :| 2 <= t && Names(g, g[m].entries[1].inum, t, m);
      UnlinkDirNames(g, dp, s, n, g', g[m].entries[1].inum, t, m);
      assert Names(g', g'[m].entries[1].inum, t, m);
    }
  }

  lemma UnlinkDirKeeps(g: Nodes, dp: nat, s: nat, n: nat, g': Nodes)
    requires Valid(g) && UnlinksDir(g, dp, s, n, g')
    ensures Valid(g')
  {
    EmptyDirLinks(g, dp, s, n);
    UnlinkDirKeepsNodes(g, dp, s, n, g');
    UnlinkDirKeepsCounts(g, dp, s, n, g');
    UnlinkDirKeepsHeld(g, dp, s, n, g');
    UnlinkDirKeepsRooted(g, dp, s, n, g');
  }

  // ---------------------------------------------------------------- a start

  /** A new file system: the root directory, whose ".." is itself. */
  lemma RootAlone(g: Nodes)
    requires ROOT in g && g[ROOT] == Node(Dir, 1, [Entry(ROOT, "."), Entry(ROOT, "..")])
    requires forall n :: n in g && n != ROOT ==> 0 < n && g[n] == Node(Unused, 0, [])
    ensures Valid(g)
  {
    forall n | n in g ensures CountOk(g, n, g[n].nlink) {
      RootRefs(g, n);
    }
  }

  lemma RootRefs(g: Nodes, n: nat)
    requires ROOT in g && g[ROOT] == Node(Dir, 1, [Entry(ROOT, "."), Entry(ROOT, "..")])
    requires (forall m :: m in g && m != ROOT ==> 0 < m && g[m] == Node(Unused, 0, [])) && n in g
    ensures Refs(g, n) == if n == ROOT then {(ROOT, 1)} else {}
  {
    assert Names(g, ROOT, 1, ROOT);
  }
}
