/** Runs from a new file system in which a link count goes wrong. */
module LinkCountRuns {
  import opened Options
  import opened LinkCounts
  import opened DirectoryNames
  import opened Directories

  const UNUSED: Node := Node(Unused, 0, [])

  /** Just the root directory, and two inodes that are not in use. */
  function New(): (g: Nodes)
    ensures Valid(g)
  {
    var g := map[ROOT := Node(Dir, 1, [Entry(ROOT, "."), Entry(ROOT, "..")]), 2 := UNUSED, 3 := UNUSED];
    RootAlone(g);
    g
  }

  // ---------------------------------------------------------------- a removed directory

  /** Directory 2 was made as "a" in the root, */
  function Made(): Nodes {
    map[ROOT := Node(Dir, 2, [Entry(ROOT, "."), Entry(ROOT, ".."), Entry(2, "a")]),
        2 := Node(Dir, 1, [Entry(2, "."), Entry(ROOT, "..")]), 3 := UNUSED]
  }

  /** and removed while a process still has it as its directory. */
  function Unmade(): Nodes {
    map[ROOT := Node(Dir, 1, [Entry(ROOT, "."), Entry(ROOT, ".."), Entry(0, "")]),
        2 := Node(Dir, 0, [Entry(2, "."), Entry(ROOT, "..")]), 3 := UNUSED]
  }

  lemma Make()
    ensures Next(New(), CreateCall(ROOT, 2, Entry(2, "a"), Dir), Made())
  {
    var dots := [Entry(ROOT, "."), Entry(ROOT, "..")];
    assert Put(dots, 2, Entry(2, "a")) == dots + [Entry(2, "a")] == Made()[ROOT].entries;
  }

  lemma Unmake()
    ensures Next(Made(), UnlinkCall(ROOT, 2, 2), Unmade())
  {
    var g, entries := Made(), [Entry(ROOT, "."), Entry(ROOT, ".."), Entry(2, "a")];
    assert entries[2 := Entry(0, "")] == [Entry(ROOT, "."), Entry(ROOT, ".."), Entry(0, "")];
    assert Short(1) == 1 && Short(0) == 0;
    assert Unmade() == g[ROOT := Node(Dir, 1, entries[2 := Entry(0, "")])][2 := g[2].(nlink := 0)];
  }

  /** and something created in it. */
  function Revived(kind: Kind): Nodes {
    Unmade()[3 := Fresh(3, 2, kind, 1)]
                [2 := Node(Dir, if kind == Dir then 1 else 0, [Entry(2, "."), Entry(ROOT, ".."), Entry(3, "b")])]
  }

  lemma Revive(kind: Kind)
    requires kind != Unused
    ensures Next(Unmade(), CreateCall(2, 2, Entry(3, "b"), kind), Revived(kind))
  {
    assert Put(Unmade()[2].entries, 2, Entry(3, "b")) == Revived(kind)[2].entries;
  }

  /** Anything created in it makes a count wrong. */
  lemma CreateInRemoved(kind: Kind) returns (states: seq<Nodes>, calls: seq<Call>)
    requires kind != Unused
    ensures IsRun(states, calls) && |calls| == 3 && states[0] == New() && calls[2].CreateCall? && calls[2].kind == kind
    ensures Valid(states[1]) && Valid(states[2]) && !Valid(states[3]) && !Counted(states[3])
  {
    var e := Entry(3, "b");
    calls := [CreateCall(ROOT, 2, Entry(2, "a"), Dir), UnlinkCall(ROOT, 2, 2), CreateCall(2, 2, e, kind)];
    states := [New(), Made(), Unmade(), Revived(kind)];
    Make();
    Unmake();
    Revive(kind);
    assert IsRun(states, calls);
    RunCounts(states, calls, 1);
    RunCounts(states, calls, 2);
    Miscounted(kind);
  }

  lemma Miscounted(kind: Kind)
    requires kind != Unused && Valid(Unmade())
    ensures !Counted(Revived(kind))
  {
    Revive(kind);
    if kind == Dir {
      CreateMiscounts(Unmade(), 2, 2, Entry(3, "b"), Revived(kind));
    } else {
      CreateUncounted(Unmade(), 2, 2, Entry(3, "b"), kind, Revived(kind));
    }
  }

  // ---------------------------------------------------------------- too many links

  /** Different names for different numbers. */
  function Name(k: nat): (s: string)
    requires k < 0x8000
  {
    [(128 + k / 16384) as char, (128 + k / 128 % 128) as char, (128 + k % 128) as char]
  }

  lemma NamesDiffer(j: nat, k: nat)
    requires j < k < 0x8000
    ensures Name(j) != Name(k) && Name(j) != "." && Name(j) != ".."
  {
    assert j == j / 16384 * 16384 + j / 128 % 128 * 128 + j % 128;
    assert k == k / 16384 * 16384 + k / 128 % 128 * 128 + k % 128;
  }

  function Links(k: nat): (s: seq<Entry>)
    requires k <= 0x8000
    ensures |s| == k + 2
    ensures s[0] == Entry(ROOT, ".") && s[1] == Entry(ROOT, "..")
    ensures forall t :: 2 <= t < |s| ==> s[t] == Entry(2, Name(t - 2))
  {
    [Entry(ROOT, "."), Entry(ROOT, "..")] + seq(k, t requires 0 <= t < k => Entry(2, Name(t)))
  }

  /** File 2 with k names in the root. */
  function Named(k: nat): Nodes
    requires k <= 0x8000
  {
    map[ROOT := Node(Dir, 1, Links(k)), 2 := Node(File, Short(k), []), 3 := UNUSED]
  }

  lemma OneMore(k: nat)
    requires 0 < k <= MAXLINK
    ensures Next(Named(k), LinkCall(ROOT, k + 2, Entry(2, Name(k))), Named(k + 1))
  {
    assert Put(Links(k), k + 2, Entry(2, Name(k))) == Links(k) + [Entry(2, Name(k))] == Links(k + 1);
    assert Short(Short(k) + 1) == Short(k + 1);
    NewName(k);
  }

  lemma NewName(k: nat)
    requires k <= MAXLINK
    ensures !Taken(Links(k), Name(k)) && FirstFree(Links(k), k + 2)
  {
    forall t | 0 <= t < |Links(k)| ensures Links(k)[t].name != Name(k) {
      if 2 <= t {
        NamesDiffer(t - 2, k);
      }
    }
  }

  lemma FirstName()
    ensures Next(New(), CreateCall(ROOT, 2, Entry(2, Name(0)), File), Named(1))
  {
    var dots := [Entry(ROOT, "."), Entry(ROOT, "..")];
    assert Put(dots, 2, Entry(2, Name(0))) == dots + [Entry(2, Name(0))] == Links(1);
  }

  lemma RunOn(states: seq<Nodes>, calls: seq<Call>, call: Call, g: Nodes)
    requires IsRun(states, calls) && Next(states[|calls|], call, g)
    ensures IsRun(states + [g], calls + [call])
  {
  }

  lemma {:induction false} Fill(k: nat) returns (states: seq<Nodes>, calls: seq<Call>)
    requires 0 < k <= MAXLINK + 1
    ensures IsRun(states, calls) && |calls| == k && states[0] == New()
    ensures forall i :: 0 < i <= k ==> states[i] == Named(i)
    ensures forall i :: 0 < i < k ==> calls[i] == LinkCall(ROOT, i + 2, Entry(2, Name(i)))
    ensures calls[0].CreateCall? && calls[0].dp == ROOT && calls[0].kind == File
  {
    if k == 1 {
      FirstName();
      states, calls := [New(), Named(1)], [CreateCall(ROOT, 2, Entry(2, Name(0)), File)];
    } else {
      states, calls := Fill(k - 1);
      OneMore(k - 1);
      RunOn(states, calls, LinkCall(ROOT, k + 1, Entry(2, Name(k - 1))), Named(k));
      states, calls := states + [Named(k)], calls + [LinkCall(ROOT, k + 1, Entry(2, Name(k - 1)))];
    }
  }

  /** The 32768th name of a file: every count is right before and one is wrong after. */
  lemma LinkPastTheLargest() returns (states: seq<Nodes>, calls: seq<Call>)
    ensures IsRun(states, calls) && |calls| == MAXLINK + 1 && states[0] == New()
    ensures Valid(states[MAXLINK]) && !Valid(states[MAXLINK + 1])
    ensures 2 in states[MAXLINK + 1] && states[MAXLINK + 1][2].nlink == -32768
  {
    states, calls := Fill(MAXLINK + 1);
    forall i | 0 <= i < MAXLINK ensures Proper(states[i], calls[i]) {
    }
    RunCounts(states, calls, MAXLINK);
  }
}
