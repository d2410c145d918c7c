/**
  What the operations of vm.c on one directory leave alone, and how an address
  space looks to the hardware.
*/
module AddressSpaces {
  import opened Options
  import opened PageTables

  /** Virtual pages; those from KERNPAGE on belong to the kernel. */
  const NVPAGES: nat := 1024 * 1024
  const KERNPAGE: nat := 512 * 1024

  /** The entry for virtual page v. */
  function At(mem: Memory, d: nat, v: nat): nat
    requires v < NVPAGES
  {
    Pte(mem, d, v / NENTRIES, v % NENTRIES)
  }

  lemma PageIndex(v: nat, i: nat, j: nat)
    requires j < NENTRIES
    ensures v == i * NENTRIES + j <==> v / NENTRIES == i && v % NENTRIES == j
    ensures i * NENTRIES + j < KERNPAGE <==> i < KERNPDX
  {
  }

  /** Page p is part of directory d. */
  predicate Own(r: Role, p: nat, d: nat) {
    (r.Dir? && p == d) || (r.Table? && r.d == d) || (r.User? && r.d == d)
  }

  /** A page goes between the free list and directory d, or into the hand of the
      caller, or is left alone. */
  predicate PageWithin(r: Role, page: Page, r': Role, page': Page, p: nat, d: nat, hand: Option<nat>) {
    if hand == Some(p) then (r == Free || Own(r, p, d)) && r' == Other
    else if r == Free || Own(r, p, d) then r' == Free || Own(r', p, d)
    else r' == r && page' == page
  }

  ghost predicate Within(mem: Memory, role: Roles, mem': Memory, role': Roles, d: nat, hand: Option<nat>) {
    && mem.Keys == role.Keys == mem'.Keys == role'.Keys
    && (forall p {:trigger role'[p]} :: p in role ==> PageWithin(role[p], mem[p], role'[p], mem'[p], p, d, hand))
  }

  lemma WithinRefl(mem: Memory, role: Roles, d: nat)
    requires mem.Keys == role.Keys
    ensures Within(mem, role, mem, role, d, None)
  {
  }

  lemma WithinTrans(mem0: Memory, role0: Roles, mem1: Memory, role1: Roles, mem2: Memory, role2: Roles, d: nat,
                    hand: Option<nat>)
    requires Within(mem0, role0, mem1, role1, d, hand) && Within(mem1, role1, mem2, role2, d, None)
    ensures Within(mem0, role0, mem2, role2, d, hand)
  {
    forall p | p in role0 ensures PageWithin(role0[p], mem0[p], role2[p], mem2[p], p, d, hand) {
      assert PageWithin(role0[p], mem0[p], role1[p], mem1[p], p, d, hand);
      assert PageWithin(role1[p], mem1[p], role2[p], mem2[p], p, d, None);
    }
  }

  /** The page in hand goes back to the free list or into the directory. */
  lemma WithinPut(mem0: Memory, role0: Roles, mem1: Memory, role1: Roles, mem2: Memory, role2: Roles, d: nat, x: nat)
    requires Within(mem0, role0, mem1, role1, d, Some(x)) && mem2.Keys == role2.Keys == role1.Keys && x in role1
    requires role2[x] == Free || Own(role2[x], x, d)
    requires forall p :: p in role1 && p != x ==> PageWithin(role1[p], mem1[p], role2[p], mem2[p], p, d, None)
    ensures Within(mem0, role0, mem2, role2, d, None)
  {
    forall p | p in role0 ensures PageWithin(role0[p], mem0[p], role2[p], mem2[p], p, d, None) {
      assert PageWithin(role0[p], mem0[p], role1[p], mem1[p], p, d, Some(x));
    }
  }

  // ---------------------------------------------------------------- what an address space shows

  /** Virtual page v is mapped as before, and to the same content. */
  ghost predicate Kept(mem: Memory, mem': Memory, d: nat, v: nat)
    requires v < NVPAGES
  {
    && At(mem', d, v) == At(mem, d, v)
    && (v < KERNPAGE && Present(At(mem, d, v)) ==>
          Addr(At(mem, d, v)) in mem && Addr(At(mem, d, v)) in mem' &&
          mem'[Addr(At(mem, d, v))] == mem[Addr(At(mem, d, v))])
  }

  /** Nothing changes outside the pages lo to hi. */
  ghost predicate KeptBut(mem: Memory, mem': Memory, d: nat, lo: nat, hi: nat) {
    forall v {:trigger At(mem', d, v)} :: 0 <= v < NVPAGES && !(lo <= v < hi) ==> Kept(mem, mem', d, v)
  }

  lemma KeptAt(mem: Memory, mem': Memory, d: nat, lo: nat, hi: nat, v: nat)
    requires KeptBut(mem, mem', d, lo, hi) && v < NVPAGES && !(lo <= v < hi)
    ensures Kept(mem, mem', d, v)
  {
    var w := At(mem', d, v);
  }

  lemma KeptTrans(mem0: Memory, mem1: Memory, mem2: Memory, d: nat, lo: nat, hi: nat)
    requires KeptBut(mem0, mem1, d, lo, hi) && KeptBut(mem1, mem2, d, lo, hi)
    ensures KeptBut(mem0, mem2, d, lo, hi)
  {
    forall v | 0 <= v < NVPAGES && !(lo <= v < hi) ensures Kept(mem0, mem2, d, v) {
      KeptAt(mem1, mem2, d, lo, hi, v);
      KeptAt(mem0, mem1, d, lo, hi, v);
    }
  }

  lemma KeptWiden(mem: Memory, mem': Memory, d: nat, lo: nat, hi: nat, lo': nat, hi': nat)
    requires KeptBut(mem, mem', d, lo, hi) && ((lo' <= lo && hi <= hi') || hi <= lo)
    ensures KeptBut(mem, mem', d, lo', hi')
  {
    forall v | 0 <= v < NVPAGES && !(lo' <= v < hi') ensures Kept(mem, mem', d, v) {
      KeptAt(mem, mem', d, lo, hi, v);
    }
  }

  /** A user page that is mapped has the role for its place. */
  lemma UserAt(mem: Memory, role: Roles, d: nat, v: nat)
    requires Sound(mem, role) && d in role && role[d] == Dir && v < KERNPAGE && Present(At(mem, d, v))
    ensures var p := Addr(At(mem, d, v)); p in role && p in mem && role[p] == User(d, v / NENTRIES, v % NENTRIES)
  {
    PageIndex(v, v / NENTRIES, v % NENTRIES);
    assert PdeOk(mem, role, d, v / NENTRIES);
    assert PteOk(mem, role, Addr(mem[d][v / NENTRIES]), v % NENTRIES);
  }

  lemma KeptRefl(mem: Memory, role: Roles, d: nat)
    requires Sound(mem, role) && d in role && role[d] == Dir
    ensures KeptBut(mem, mem, d, 0, 0)
  {
    forall v | 0 <= v < NVPAGES ensures Kept(mem, mem, d, v) {
      if v < KERNPAGE && Present(At(mem, d, v)) {
        UserAt(mem, role, d, v);
      }
    }
  }

  lemma KeptByPlain(mem: Memory, role: Roles, p: nat, page: Page, d: nat, mem': Memory)
    requires Sound(mem, role) && p in role && Plain(role[p]) && d in role && role[d] == Dir && mem' == mem[p := page]
    ensures KeptBut(mem, mem', d, 0, 0)
  {
    forall v | 0 <= v < NVPAGES ensures Kept(mem, mem', d, v) {
      PlainView(mem, role, p, page, d, v / NENTRIES, v % NENTRIES);
      if v < KERNPAGE && Present(At(mem, d, v)) {
        UserAt(mem, role, d, v);
      }
    }
  }

  lemma KeptByTable(mem: Memory, role: Roles, d: nat, i: nat, t: nat, mem': Memory, role': Roles)
    requires Sound(mem, role) && AddsTable(mem, role, d, i, t, mem', role')
    ensures KeptBut(mem, mem', d, 0, 0)
  {
    forall v | 0 <= v < NVPAGES ensures Kept(mem, mem', d, v) {
      AddTableView(mem, role, d, i, t, mem', role', d, v / NENTRIES, v % NENTRIES);
      if v < KERNPAGE && Present(At(mem, d, v)) {
        UserAt(mem, role, d, v);
      }
    }
  }

  lemma KeptBySet(mem: Memory, role: Roles, t: nat, j: nat, w: nat, mem': Memory, role': Roles, d: nat, i: nat)
    requires Sound(mem, role) && SetsEntry(mem, role, t, j, w, mem', role') && role[t] == Table(d, i)
    ensures i * NENTRIES + j < NVPAGES && At(mem', d, i * NENTRIES + j) == w
    ensures KeptBut(mem, mem', d, i * NENTRIES + j, i * NENTRIES + j + 1)
  {
    assert TableOk(mem, role, t);
    PageIndex(i * NENTRIES + j, i, j);
    SetEntryView(mem, role, t, j, w, mem', role', d, i, j);
    forall v | 0 <= v < NVPAGES && v != i * NENTRIES + j ensures Kept(mem, mem', d, v) {
      PageIndex(v, i, j);
      SetEntryView(mem, role, t, j, w, mem', role', d, v / NENTRIES, v % NENTRIES);
      if v < KERNPAGE && Present(At(mem, d, v)) {
        UserAt(mem, role, d, v);
      }
    }
  }

  lemma KeptByDrop(mem: Memory, role: Roles, t: nat, j: nat, p: nat, page: Page, mem': Memory, role': Roles, d: nat,
                   i: nat)
    requires Sound(mem, role) && DropsUser(mem, role, t, j, p, page, mem', role') && role[t] == Table(d, i)
    ensures i * NENTRIES + j < KERNPAGE && At(mem', d, i * NENTRIES + j) == 0
    ensures KeptBut(mem, mem', d, i * NENTRIES + j, i * NENTRIES + j + 1)
  {
    assert TableOk(mem, role, t);
    PageIndex(i * NENTRIES + j, i, j);
    DropUserView(mem, role, t, j, p, page, mem', role', d, i, j);
    forall v | 0 <= v < NVPAGES && v != i * NENTRIES + j ensures Kept(mem, mem', d, v) {
      PageIndex(v, i, j);
      DropUserView(mem, role, t, j, p, page, mem', role', d, v / NENTRIES, v % NENTRIES);
      if v < KERNPAGE && Present(At(mem, d, v)) {
        UserAt(mem, role, d, v);
      }
    }
  }
}
