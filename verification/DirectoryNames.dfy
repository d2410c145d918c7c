/** What dirlookup() finds for every name, and what adding and clearing a slot does to it. */
module DirectoryNames {
  import opened LinkCounts

  /** The inode that a name stands for; 0 if there is none. */
  function Lookup(entries: seq<Entry>, name: string): nat {
    if entries == [] then 0
    else if entries[0].inum != 0 && entries[0].name == name then entries[0].inum
    else Lookup(entries[1..], name)
  }

  predicate Taken(entries: seq<Entry>, name: string) {
    exists t :: 0 <= t < |entries| && entries[t].inum != 0 && entries[t].name == name
  }

  /** The first empty slot, or the end. */
  predicate FirstFree(entries: seq<Entry>, s: nat) {
    s <= |entries| && (s < |entries| ==> entries[s].inum == 0) && forall t :: 0 <= t < s ==> entries[t].inum != 0
  }

  function Put(entries: seq<Entry>, s: nat, e: Entry): seq<Entry>
    requires s <= |entries|
  {
    if s < |entries| then entries[s := e] else entries + [e]
  }

  /** Slot s is the first in use with the name. */
  ghost predicate FirstNamed(entries: seq<Entry>, name: string, s: nat) {
    && s < |entries| && entries[s].inum != 0 && entries[s].name == name
    && forall t :: 0 <= t < s ==> entries[t].inum == 0 || entries[t].name != name
  }

  lemma {:induction false} LookupFirst(entries: seq<Entry>, name: string, s: nat)
    requires FirstNamed(entries, name, s)
    ensures Lookup(entries, name) == entries[s].inum
  {
    if 0 < s {
      assert forall t :: 0 <= t < s - 1 ==> entries[1..][t] == entries[t + 1];
      LookupFirst(entries[1..], name, s - 1);
    }
  }

  lemma {:induction false} LookupNone(entries: seq<Entry>, name: string)
    requires !Taken(entries, name)
    ensures Lookup(entries, name) == 0
  {
    if entries != [] {
      assert forall t :: 0 <= t < |entries| - 1 ==> entries[1..][t] == entries[t + 1];
      LookupNone(entries[1..], name);
    }
  }

  /** A name that is taken has a first slot. */
  lemma {:induction false} FirstOf(entries: seq<Entry>, name: string, n: nat) returns (s: nat)
    requires n < |entries| && entries[n].inum != 0 && entries[n].name == name
    ensures s <= n && FirstNamed(entries, name, s)
  {
    if t :| 0 <= t < n && entries[t].inum != 0 && entries[t].name == name {
      s := FirstOf(entries, name, t);
    } else {
      s := n;
    }
  }

  lemma LookupSame(entries: seq<Entry>, entries': seq<Entry>, name: string)
    requires |entries| <= |entries'|
    requires forall t :: 0 <= t < |entries| && entries[t].inum != 0 && entries[t].name == name ==>
      entries'[t] == entries[t]
    requires forall t :: 0 <= t < |entries'| && entries'[t].inum != 0 && entries'[t].name == name ==>
      t < |entries| && entries[t] == entries'[t]
    ensures Lookup(entries', name) == Lookup(entries, name)
  {
    if Taken(entries, name) {
      var n :| 0 <= n < |entries| && entries[n].inum != 0 && entries[n].name == name;
      var s := FirstOf(entries, name, n);
      LookupFirst(entries, name, s);
      LookupFirst(entries', name, s);
    } else {
      LookupNone(entries, name);
      LookupNone(entries', name);
    }
  }

  /** A new name stands for its inode, and every other name for what it did. */
  lemma PutLookup(entries: seq<Entry>, s: nat, e: Entry, x: string)
    requires FirstFree(entries, s) && !Taken(entries, e.name) && e.inum != 0
    ensures Lookup(Put(entries, s, e), x) == if x == e.name then e.inum else Lookup(entries, x)
  {
    var entries' := Put(entries, s, e);
    if x == e.name {
      assert FirstNamed(entries', x, s);
      LookupFirst(entries', x, s);
    } else {
      LookupSame(entries, entries', x);
    }
  }

  /** No two slots in use have the same name. */
  ghost predicate Unique(entries: seq<Entry>) {
    forall i, j :: 0 <= i < j < |entries| && entries[i].inum != 0 && entries[j].inum != 0 ==>
      entries[i].name != entries[j].name
  }

  lemma PutUnique(entries: seq<Entry>, s: nat, e: Entry)
    requires FirstFree(entries, s) && !Taken(entries, e.name) && Unique(entries)
    ensures Unique(Put(entries, s, e))
  {
  }

  /** Clearing its first slot changes no other name, and ends a name that is unique. */
  lemma ClearLookup(entries: seq<Entry>, s: nat, x: string)
    requires s < |entries| && entries[s].inum != 0
    ensures x != entries[s].name ==> Lookup(entries[s := Entry(0, "")], x) == Lookup(entries, x)
    ensures Unique(entries) && x == entries[s].name ==> Lookup(entries[s := Entry(0, "")], x) == 0
  {
    var entries' := entries[s := Entry(0, "")];
    if x != entries[s].name {
      LookupSame(entries, entries', x);
    } else if Unique(entries) {
      LookupNone(entries', x);
    }
  }
}
