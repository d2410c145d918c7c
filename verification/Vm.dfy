/** vm.c: page directories built from, and returned to, the list of free pages. */
module Vm {
  import opened Options
  import opened PageTables
  import opened AddressSpaces
  import opened Kalloc

  datatype MapResult = Mapped | NoMemory | Remap

  ghost predicate IsDir(k: Pages, d: nat)
    reads k
  {
    k.Valid() && d in k.role && k.role[d] == Dir
  }

  /** PGROUNDUP, in pages. */
  function Up(size: nat): nat {
    (size + PGSIZE - 1) / PGSIZE
  }

  // ---------------------------------------------------------------- how many pages it takes

  /** The tables that a directory has. */
  ghost function Tables(dir: Page): (s: set<nat>) {
    set i | 0 <= i < NENTRIES && Present(dir[i])
  }

  /** Free pages and tables: making a table turns one into the other. */
  ghost function Pool(k: Pages, d: nat): nat
    requires d in k.mem
    reads k
  {
    |k.fl| + |Tables(k.mem[d])|
  }

  lemma TableCounts(dir: Page, i: nat, w: nat)
    requires i < NENTRIES && !Present(dir[i]) && Present(w)
    ensures |Tables(dir[i := w])| == |Tables(dir)| + 1
  {
    assert Tables(dir[i := w]) == Tables(dir) + {i};
  }

  lemma TablesBounded(dir: Page)
    ensures |Tables(dir)| <= NENTRIES
  {
    Below(Tables(dir), NENTRIES);
  }

  lemma {:induction false} Below(s: set<nat>, n: nat)
    requires forall i :: i in s ==> i < n
    ensures |s| <= n
  {
    if 0 < n {
      Below(s - {n - 1}, n - 1);
    }
  }

  // ---------------------------------------------------------------- walkpgdir() and mappages()

  /** A zeroed page becomes the table for entry i of directory d. */
  method NewTable(k: Pages, d: nat, i: nat) returns (r: Option<nat>)
    requires IsDir(k, d) && i < NENTRIES && !Present(k.mem[d][i])
    modifies k
    ensures IsDir(k, d) && Within(old(k.mem), old(k.role), k.mem, k.role, d, None)
    ensures KeptBut(old(k.mem), k.mem, d, 0, 0)
    ensures r.Some? ==> r.value in k.role && k.role[r.value] == Table(d, i)
    ensures r.None? <==> old(k.fl) == []
    ensures r.None? ==>
      k.mem == old(k.mem) && k.role == old(k.role) && k.fl == old(k.fl) && k.freelist == old(k.freelist)
    ensures Pool(k, d) == old(Pool(k, d)) && |old(k.fl)| <= |k.fl| + 1
  {
    ghost var mem0, role0 := k.mem, k.role;
    r := k.Kalloc();
    if r.None? {
      WithinRefl(mem0, role0, d);
      KeptRefl(mem0, role0, d);
      return;
    }
    PutTable(k, d, i, r.value, role0);
  }

  method PutTable(k: Pages, d: nat, i: nat, t: nat, ghost role0: Roles)
    requires IsDir(k, d) && i < NENTRIES && !Present(k.mem[d][i])
    requires Sound(k.mem, role0) && d in role0 && role0[d] == Dir && t in role0 && role0[t] == Free
    requires k.role == role0[t := Other]
    modifies k
    ensures IsDir(k, d) && Within(old(k.mem), role0, k.mem, k.role, d, None) && KeptBut(old(k.mem), k.mem, d, 0, 0)
    ensures t in k.role && k.role[t] == Table(d, i) && k.fl == old(k.fl) && Pool(k, d) == old(Pool(k, d)) + 1
  {
    ghost var mem0, role1 := k.mem, k.role;
    k.mem := k.mem[t := Filled(0)];
    k.mem := k.mem[d := k.mem[d][i := Entry(t, 7)]];
    k.role := k.role[t := Table(d, i)];
    TableMade(mem0, role0, d, i, t, role1, k.mem, k.role);
    TableCounts(mem0[d], i, Entry(t, 7));
    UseOk(mem0, role1, k.fl, k.freelist, k.mem, k.role);
  }

  lemma TableMade(mem0: Memory, role0: Roles, d: nat, i: nat, t: nat, role1: Roles, mem: Memory, role: Roles)
    requires Sound(mem0, role0) && d in role0 && role0[d] == Dir && i < NENTRIES && !Present(mem0[d][i])
    requires t in role0 && role0[t] == Free && role1 == role0[t := Other]
    requires mem == mem0[t := Filled(0)][d := mem0[d][i := Entry(t, 7)]] && role == role1[t := Table(d, i)]
    ensures Sound(mem, role) && Within(mem0, role0, mem, role, d, None) && KeptBut(mem0, mem, d, 0, 0)
  {
    var mem1 := mem0[t := Filled(0)];
    PlainChange(mem0, role0, t, Filled(0), Other);
    KeptByPlain(mem0, role0, t, Filled(0), d, mem1);
    AddTable(mem1, role1, d, i, t, mem, role);
    KeptByTable(mem1, role1, d, i, t, mem, role);
    KeptTrans(mem0, mem1, mem, d, 0, 0);
  }

  /** walkpgdir(): the table for entry i, made if alloc asks for it.  No page of the
      address space is mapped differently. */
  method Walkpgdir(k: Pages, d: nat, i: nat, alloc: bool) returns (r: Option<nat>)
    requires IsDir(k, d) && i < NENTRIES
    modifies k
    ensures IsDir(k, d) && Within(old(k.mem), old(k.role), k.mem, k.role, d, None)
    ensures KeptBut(old(k.mem), k.mem, d, 0, 0)
    ensures r.Some? ==> r.value in k.role && k.role[r.value] == Table(d, i)
    ensures r.None? || Present(old(k.mem)[d][i]) ==>
      k.mem == old(k.mem) && k.role == old(k.role) && k.fl == old(k.fl) && k.freelist == old(k.freelist)
    ensures r.None? <==> !Present(old(k.mem)[d][i]) && (!alloc || old(k.fl) == [])
    ensures Pool(k, d) == old(Pool(k, d)) && |old(k.fl)| <= |k.fl| + 1
  {
    if Present(k.mem[d][i]) {
      assert PdeOk(k.mem, k.role, d, i);
      WithinRefl(k.mem, k.role, d);
      KeptRefl(k.mem, k.role, d);
      return Some(Addr(k.mem[d][i]));
    }
    if !alloc {
      WithinRefl(k.mem, k.role, d);
      KeptRefl(k.mem, k.role, d);
      return None;
    }
    r := NewTable(k, d, i);
  }

  /** Directory d changed at virtual page v only: `page` is there now. */
  ghost predicate Placed(mem: Memory, role: Roles, mem': Memory, role': Roles, d: nat, v: nat, page: nat) {
    && v < NVPAGES && mem.Keys == role.Keys == mem'.Keys == role'.Keys && KeptBut(mem, mem', d, v, v + 1)
    && (if v < KERNPAGE then
          && page in role && role[page] == Other && role'[page] == User(d, v / NENTRIES, v % NENTRIES)
          && mem'[page] == mem[page]
          && (forall p :: p in role && p != page ==> PageWithin(role[p], mem[p], role'[p], mem'[p], p, d, None))
        else Within(mem, role, mem', role', d, None))
  }

  /** One turn of mappages(): virtual page v gets physical page `page`. */
  method MapPage(k: Pages, d: nat, v: nat, page: nat, perm: nat) returns (r: MapResult)
    requires IsDir(k, d) && v < NVPAGES && perm < PGSIZE
    requires v < KERNPAGE ==> page in k.role && k.role[page] == Other
    modifies k
    ensures IsDir(k, d)
    ensures r == Remap <==> Present(At(old(k.mem), d, v))
    ensures r == Mapped ==>
      At(k.mem, d, v) == Entry(page, perm) && Placed(old(k.mem), old(k.role), k.mem, k.role, d, v, page)
    ensures r != Mapped ==>
      Within(old(k.mem), old(k.role), k.mem, k.role, d, None) && KeptBut(old(k.mem), k.mem, d, 0, 0)
    ensures r == NoMemory ==> old(k.fl) == [] && k.fl == []
    ensures Pool(k, d) == old(Pool(k, d)) && |old(k.fl)| <= |k.fl| + 1
  {
    var i, j := v / NENTRIES, v % NENTRIES;
    ghost var mem0, role0 := k.mem, k.role;
    var t := Walkpgdir(k, d, i, true);
    if t.None? {
      return NoMemory;
    }
    assert TableOk(k.mem, k.role, t.value) && At(k.mem, d, v) == At(mem0, d, v);
    if Present(k.mem[t.value][j]) {
      return Remap;
    }
    PutEntry(k, d, v, t.value, page, perm, mem0, role0);
    return Mapped;
  }

  /** *pte = pa | perm | PTE_P */
  method PutEntry(k: Pages, d: nat, v: nat, t: nat, page: nat, perm: nat, ghost mem0: Memory, ghost role0: Roles)
    requires IsDir(k, d) && v < NVPAGES && perm < PGSIZE && t in k.role && k.role[t] == Table(d, v / NENTRIES)
    requires !Present(k.mem[t][v % NENTRIES])
    requires Within(mem0, role0, k.mem, k.role, d, None) && KeptBut(mem0, k.mem, d, 0, 0)
    requires v < KERNPAGE ==> page in role0 && role0[page] == Other
    modifies k
    ensures IsDir(k, d) && At(k.mem, d, v) == Entry(page, perm) && Placed(mem0, role0, k.mem, k.role, d, v, page)
    ensures k.fl == old(k.fl) && k.mem[d] == old(k.mem)[d]
  {
    ghost var mem1, role1 := k.mem, k.role;
    k.mem := k.mem[t := k.mem[t][v % NENTRIES := Entry(page, perm)]];
    if v < KERNPAGE {
      assert PageWithin(role0[page], mem0[page], role1[page], mem1[page], page, d, None);
      k.role := k.role[page := User(d, v / NENTRIES, v % NENTRIES)];
    }
    PageIndex(v, v / NENTRIES, v % NENTRIES);
    EntryMade(mem0, role0, d, v, t, page, Entry(page, perm), mem1, role1, k.mem, k.role);
    UseOk(mem1, role1, k.fl, k.freelist, k.mem, k.role);
  }

  lemma EntryMade(mem0: Memory, role0: Roles, d: nat, v: nat, t: nat, page: nat, w: nat, mem1: Memory, role1: Roles,
                  mem: Memory, role: Roles)
    requires Sound(mem1, role1) && Within(mem0, role0, mem1, role1, d, None) && KeptBut(mem0, mem1, d, 0, 0)
    requires v < NVPAGES
    requires v < KERNPAGE ==> page in role0 && role0[page] == Other && Addr(w) == page
    requires t in role1 && role1[t] == Table(d, v / NENTRIES) && SetsEntry(mem1, role1, t, v % NENTRIES, w, mem, role)
    ensures Sound(mem, role) && At(mem, d, v) == w && Placed(mem0, role0, mem, role, d, v, page)
  {
    var i, j := v / NENTRIES, v % NENTRIES;
    PageIndex(v, i, j);
    SetEntry(mem1, role1, t, j, w, mem, role);
    KeptBySet(mem1, role1, t, j, w, mem, role, d, i);
    KeptWiden(mem0, mem1, d, 0, 0, v, v + 1);
    KeptTrans(mem0, mem1, mem, d, v, v + 1);
    EntryWithin(mem0, role0, d, v, t, page, w, mem1, role1, mem, role);
  }

  lemma EntryWithin(mem0: Memory, role0: Roles, d: nat, v: nat, t: nat, page: nat, w: nat, mem1: Memory, role1: Roles,
                    mem: Memory, role: Roles)
    requires mem1.Keys == role1.Keys && Within(mem0, role0, mem1, role1, d, None) && v < NVPAGES
    requires v < KERNPAGE ==> page in role0 && role0[page] == Other && Addr(w) == page
    requires t in role1 && role1[t] == Table(d, v / NENTRIES) && SetsEntry(mem1, role1, t, v % NENTRIES, w, mem, role)
    ensures forall p :: p in role0 && (v < KERNPAGE ==> p != page) ==>
      PageWithin(role0[p], mem0[p], role[p], mem[p], p, d, None)
    ensures v < KERNPAGE ==> mem[page] == mem0[page] && role[page] == User(d, v / NENTRIES, v % NENTRIES)
  {
    PageIndex(v, v / NENTRIES, v % NENTRIES);
    forall p | p in role0 && (v < KERNPAGE ==> p != page)
      ensures PageWithin(role0[p], mem0[p], role[p], mem[p], p, d, None)
    {
      assert PageWithin(role0[p], mem0[p], role1[p], mem1[p], p, d, None);
    }
    if v < KERNPAGE {
      assert PageWithin(role0[page], mem0[page], role1[page], mem1[page], page, d, None);
    }
  }

  // ---------------------------------------------------------------- deallocuvm() and freevm()

  /** No page from lo to hi is mapped. */
  ghost predicate Unmapped(mem: Memory, d: nat, lo: nat, hi: nat) {
    forall v {:trigger At(mem, d, v)} :: lo <= v < hi && v < NVPAGES ==> At(mem, d, v) == 0
  }

  /** The user page at v goes to the free list; pa is not 0. */
  method DropPage(k: Pages, d: nat, v: nat, t: nat)
    requires IsDir(k, d) && v < KERNPAGE && t in k.role && k.role[t] == Table(d, v / NENTRIES)
    requires Present(k.mem[t][v % NENTRIES])
    modifies k
    ensures IsDir(k, d) && At(k.mem, d, v) == 0
    ensures Within(old(k.mem), old(k.role), k.mem, k.role, d, None) && KeptBut(old(k.mem), k.mem, d, v, v + 1)
    ensures k.role == old(k.role)[Addr(old(k.mem)[t][v % NENTRIES]) := Free]
  {
    var i, j := v / NENTRIES, v % NENTRIES;
    PageIndex(v, i, j);
    assert PteOk(k.mem, k.role, t, j);
    var pa := Addr(k.mem[t][j]);
    assert pa != 0;
    ghost var mem0, role0 := k.mem, k.role;
    k.Kfree(pa);
    ghost var mem1 := k.mem;
    k.mem := k.mem[t := k.mem[t][j := 0]];
    DropUser(mem0, role0, t, j, pa, mem1[pa], k.mem, k.role);
    KeptByDrop(mem0, role0, t, j, pa, mem1[pa], k.mem, k.role, d, i);
    UseOk(mem1, k.role, k.fl, k.freelist, k.mem, k.role);
  }

  /** What deallocuvm() has done when it is at page a. */
  ghost predicate Dropped(mem0: Memory, role0: Roles, mem: Memory, role: Roles, d: nat, lo: nat, hi: nat, a: nat) {
    Within(mem0, role0, mem, role, d, None) && KeptBut(mem0, mem, d, lo, hi) && Unmapped(mem, d, lo, a)
  }

  /** A user page of directory d, mapped from lo to hi. */
  predicate UserIn(r: Role, d: nat, lo: nat, hi: nat) {
    r.User? && r.d == d && lo <= r.i * NENTRIES + r.j < hi
  }

  /** The frames that were mapped from lo to hi are free, and no other has changed
      its role. */
  ghost predicate FramesFreed(role0: Roles, role: Roles, d: nat, lo: nat, hi: nat) {
    && role.Keys == role0.Keys
    && forall p {:trigger role[p]} :: p in role0 ==> role[p] == if UserIn(role0[p], d, lo, hi) then Free else role0[p]
  }

  /** Freeing the frame at page a. */
  lemma FreesFrame(role0: Roles, mem: Memory, role: Roles, d: nat, lo: nat, a: nat, t: nat, pa: nat)
    requires Sound(mem, role) && FramesFreed(role0, role, d, lo, a) && lo <= a < KERNPAGE
    requires t in role && role[t] == Table(d, a / NENTRIES) && Present(mem[t][a % NENTRIES])
    requires pa == Addr(mem[t][a % NENTRIES])
    ensures FramesFreed(role0, role[pa := Free], d, lo, a + 1)
  {
    PageIndex(a, a / NENTRIES, a % NENTRIES);
    assert PteOk(mem, role, t, a % NENTRIES) && TableOk(mem, role, t);
    forall p | p in role0 ensures role[pa := Free][p] == if UserIn(role0[p], d, lo, a + 1) then Free else role0[p] {
      assert p in role;
      if UserIn(role0[p], d, a, a + 1) {
        UserPlace(mem, role, p);
        PageIndex(a, role[p].i, role[p].j);
      }
    }
  }

  /** No frame is mapped from a to next. */
  lemma FreesNone(role0: Roles, mem: Memory, role: Roles, d: nat, lo: nat, a: nat, next: nat)
    requires Sound(mem, role) && FramesFreed(role0, role, d, lo, a) && lo <= a <= next <= KERNPAGE
    requires Unmapped(mem, d, a, next)
    ensures FramesFreed(role0, role, d, lo, next)
  {
    forall p | p in role0 ensures !UserIn(role0[p], d, a, next) {
      assert p in role && role[p] == if UserIn(role0[p], d, lo, a) then Free else role0[p];
      if role[p].User? && role[p].d == d {
        UserIsMapped(mem, role, p);
      }
    }
  }

  /** The place of a user page in its address space is mapped to it. */
  lemma UserIsMapped(mem: Memory, role: Roles, p: nat)
    requires Sound(mem, role) && p in role && role[p].User?
    ensures var v := role[p].i * NENTRIES + role[p].j;
      v < NVPAGES && Present(At(mem, role[p].d, v)) && Addr(At(mem, role[p].d, v)) == p
  {
    UserPlace(mem, role, p);
    PageIndex(role[p].i * NENTRIES + role[p].j, role[p].i, role[p].j);
  }

  function Least(a: nat, b: nat): nat {
    if a < b then a else b
  }

  method DropTurn(k: Pages, d: nat, a: nat, ghost lo: nat, ghost hi: nat, ghost mem0: Memory,
                  ghost role0: Roles) returns (next: nat)
    requires IsDir(k, d) && lo <= a < hi <= KERNPAGE && Dropped(mem0, role0, k.mem, k.role, d, lo, hi, a)
    requires FramesFreed(role0, k.role, d, lo, a)
    modifies k
    ensures IsDir(k, d) && a < next && Dropped(mem0, role0, k.mem, k.role, d, lo, hi, next)
    ensures FramesFreed(role0, k.role, d, lo, Least(next, hi))
  {
    PageIndex(a, a / NENTRIES, a % NENTRIES);
    var t := Walkpgdir(k, d, a / NENTRIES, false);
    if t.None? {
      next := (a / NENTRIES + 1) * NENTRIES;
      NoTableThere(k.mem, d, a, lo);
      FreesNone(role0, k.mem, k.role, d, lo, a, Least(next, hi));
      return;
    }
    if Present(k.mem[t.value][a % NENTRIES]) {
      DropMapped(k, d, a, t.value, lo, hi, mem0, role0);
    } else {
      assert TableOk(k.mem, k.role, t.value);
      FreesNone(role0, k.mem, k.role, d, lo, a, a + 1);
    }
    next := a + 1;
  }

  method DropMapped(k: Pages, d: nat, a: nat, t: nat, ghost lo: nat, ghost hi: nat, ghost mem0: Memory,
                    ghost role0: Roles)
    requires IsDir(k, d) && lo <= a < hi <= KERNPAGE && Dropped(mem0, role0, k.mem, k.role, d, lo, hi, a)
    requires t in k.role && k.role[t] == Table(d, a / NENTRIES) && Present(k.mem[t][a % NENTRIES])
    requires FramesFreed(role0, k.role, d, lo, a)
    modifies k
    ensures IsDir(k, d) && Dropped(mem0, role0, k.mem, k.role, d, lo, hi, a + 1)
    ensures FramesFreed(role0, k.role, d, lo, a + 1)
  {
    ghost var mem1, role1 := k.mem, k.role;
    FreesFrame(role0, mem1, role1, d, lo, a, t, Addr(mem1[t][a % NENTRIES]));
    DropPage(k, d, a, t);
    DropAdvance(mem0, role0, mem1, role1, k.mem, k.role, d, lo, hi, a);
  }

  lemma NoTableThere(mem: Memory, d: nat, a: nat, lo: nat)
    requires d in mem && a < NVPAGES && lo <= a && !Present(mem[d][a / NENTRIES]) && Unmapped(mem, d, lo, a)
    ensures Unmapped(mem, d, lo, (a / NENTRIES + 1) * NENTRIES)
  {
    forall v | lo <= v < (a / NENTRIES + 1) * NENTRIES && v < NVPAGES ensures At(mem, d, v) == 0 {
      if a <= v {
        assert v / NENTRIES == a / NENTRIES;
      }
    }
  }

  lemma DropAdvance(mem0: Memory, role0: Roles, mem1: Memory, role1: Roles, mem: Memory, role: Roles, d: nat, lo: nat,
                    hi: nat, a: nat)
    requires lo <= a < hi <= KERNPAGE && Dropped(mem0, role0, mem1, role1, d, lo, hi, a)
    requires Within(mem1, role1, mem, role, d, None) && KeptBut(mem1, mem, d, a, a + 1) && At(mem, d, a) == 0
    ensures Dropped(mem0, role0, mem, role, d, lo, hi, a + 1)
  {
    WithinTrans(mem0, role0, mem1, role1, mem, role, d, None);
    KeptWiden(mem1, mem, d, a, a + 1, lo, hi);
    KeptTrans(mem0, mem1, mem, d, lo, hi);
    forall v | lo <= v < a + 1 && v < NVPAGES ensures At(mem, d, v) == 0 {
      if v < a {
        assert At(mem1, d, v) == 0 && Kept(mem1, mem, d, v);
      }
    }
  }

  /** deallocuvm(): the pages from newsz to oldsz are no longer mapped and their
      frames are free; the rest of the address space is as it was. */
  method Deallocuvm(k: Pages, d: nat, oldsz: nat, newsz: nat) returns (size: nat)
    requires IsDir(k, d) && oldsz <= KERNBASE
    modifies k
    ensures IsDir(k, d) && size == if newsz >= oldsz then oldsz else newsz
    ensures Within(old(k.mem), old(k.role), k.mem, k.role, d, None)
    ensures KeptBut(old(k.mem), k.mem, d, Up(newsz), Up(oldsz))
    ensures (newsz < oldsz ==> Unmapped(k.mem, d, Up(newsz), Up(oldsz)))
    ensures newsz >= oldsz ==> k.mem == old(k.mem) && k.role == old(k.role)
    ensures newsz < oldsz ==> FramesFreed(old(k.role), k.role, d, Up(newsz), Up(oldsz))
  {
    ghost var mem0, role0 := k.mem, k.role;
    WithinRefl(mem0, role0, d);
    KeptRefl(mem0, role0, d);
    KeptWiden(mem0, mem0, d, 0, 0, Up(newsz), Up(oldsz));
    if newsz >= oldsz {
      return oldsz;
    }
    var a, lo, hi := Up(newsz), Up(newsz), Up(oldsz);
    while a < hi
      invariant lo <= a && IsDir(k, d) && Dropped(mem0, role0, k.mem, k.role, d, lo, hi, a)
      invariant FramesFreed(role0, k.role, d, lo, Least(a, hi))
    {
      a := DropTurn(k, d, a, lo, hi, mem0, role0);
    }
    return newsz;
  }

  /** freevm() has freed the tables before entry i; mem1 and role1 are from before. */
  predicate PageFreed(r1: Role, page1: Page, r: Role, page: Page, p: nat, d: nat, i: nat) {
    if p == d then r == Other && page == page1
    else if r1.Table? && r1.d == d then r == if r1.i < i then Free else Dying(d, r1.i)
    else r == r1 && (r1 != Free ==> page == page1)
  }

  ghost predicate Freeing(mem1: Memory, role1: Roles, mem: Memory, role: Roles, d: nat, i: nat) {
    && mem1.Keys == role1.Keys == mem.Keys == role.Keys
    && (forall p {:trigger role[p]} :: p in role1 ==> PageFreed(role1[p], mem1[p], role[p], mem[p], p, d, i))
  }

  /** Directory d has no user pages. */
  ghost predicate NoUserPages(role: Roles, d: nat) {
    forall p :: p in role && role[p].User? ==> role[p].d != d
  }

  lemma UnmappedHasNone(mem: Memory, role: Roles, d: nat)
    requires Sound(mem, role) && d in role && Unmapped(mem, d, 0, KERNPAGE)
    ensures NoUserPages(role, d)
  {
    forall p | p in role && role[p].User? ensures role[p].d != d {
      UserPlace(mem, role, p);
      var v := role[p].i * NENTRIES + role[p].j;
      PageIndex(v, role[p].i, role[p].j);
      assert At(mem, role[p].d, v) == Pte(mem, role[p].d, role[p].i, role[p].j);
    }
  }

  lemma FreeingStarts(mem: Memory, role: Roles, d: nat)
    requires Sound(mem, role) && d in role && role[d] == Dir && NoUserPages(role, d)
    ensures Freeing(mem, role, mem, Buried(role, d), d, 0)
  {
    forall p | p in role ensures PageFreed(role[p], mem[p], Buried(role, d)[p], mem[p], p, d, 0) {
      assert TableOk(mem, role, p);
    }
  }

  /** One turn of the loop of freevm() over the directory. */
  method FreeTable(k: Pages, d: nat, i: nat, ghost mem1: Memory, ghost role1: Roles)
    requires k.Valid() && Sound(mem1, role1) && d in role1 && role1[d] == Dir && i < NENTRIES
    requires Freeing(mem1, role1, k.mem, k.role, d, i)
    modifies k
    ensures k.Valid() && Freeing(mem1, role1, k.mem, k.role, d, i + 1)
  {
    assert PageFreed(role1[d], mem1[d], k.role[d], k.mem[d], d, d, i);
    assert PdeOk(mem1, role1, d, i);
    ghost var mem0, role0 := k.mem, k.role;
    if Present(k.mem[d][i]) {
      var t := Addr(k.mem[d][i]);
      assert PageFreed(role1[t], mem1[t], k.role[t], k.mem[t], t, d, i);
      k.Release(t);
    }
    forall p | p in role1 ensures PageFreed(role1[p], mem1[p], k.role[p], k.mem[p], p, d, i + 1) {
      assert PageFreed(role1[p], mem1[p], role0[p], mem0[p], p, d, i);
      assert TableOk(mem1, role1, p);
    }
  }

  /** freevm(): every page of the directory is free again, and no other is touched. */
  method Freevm(k: Pages, d: nat)
    requires IsDir(k, d)
    modifies k
    ensures k.Valid() && Within(old(k.mem), old(k.role), k.mem, k.role, d, None)
    ensures forall p :: p in k.role ==> k.role[p] == if Own(old(k.role)[p], p, d) then Free else old(k.role)[p]
  {
    ghost var mem0, role0 := k.mem, k.role;
    var size := Deallocuvm(k, d, KERNBASE, 0);
    UnmappedHasNone(k.mem, k.role, d);
    FreeTables(k, d, mem0, role0);
  }

  /** freevm() after deallocuvm(). */
  method FreeTables(k: Pages, d: nat, ghost mem0: Memory, ghost role0: Roles)
    requires IsDir(k, d) && NoUserPages(k.role, d) && Within(mem0, role0, k.mem, k.role, d, None)
    modifies k
    ensures k.Valid() && Within(mem0, role0, k.mem, k.role, d, None)
    ensures forall p :: p in k.role ==> k.role[p] == if Own(role0[p], p, d) then Free else role0[p]
  {
    ghost var mem1, role1 := k.mem, k.role;
    Bury(k.mem, k.role, d);
    FreeingStarts(k.mem, k.role, d);
    UseOk(k.mem, k.role, k.fl, k.freelist, k.mem, Buried(k.role, d));
    k.role := Buried(k.role, d);
    var i := 0;
    while i < NENTRIES
      invariant 0 <= i <= NENTRIES && k.Valid() && Freeing(mem1, role1, k.mem, k.role, d, i)
    {
      FreeTable(k, d, i, mem1, role1);
      i := i + 1;
    }
    ghost var mem2, role2 := k.mem, k.role;
    assert PageFreed(role1[d], mem1[d], k.role[d], k.mem[d], d, d, i);
    k.Release(d);
    AllFreed(mem0, role0, mem1, role1, mem2, role2, k.mem, k.role, d);
  }

  lemma AllFreed(mem0: Memory, role0: Roles, mem1: Memory, role1: Roles, mem2: Memory, role2: Roles, mem: Memory,
                 role: Roles, d: nat)
    requires Within(mem0, role0, mem1, role1, d, None) && Sound(mem1, role1) && NoUserPages(role1, d) && d in role1
    requires role1[d] == Dir
    requires Freeing(mem1, role1, mem2, role2, d, NENTRIES) && role == role2[d := Free] && d in mem
    requires mem == mem2[d := mem[d]]
    ensures Within(mem0, role0, mem, role, d, None)
    ensures forall p :: p in role ==> role[p] == if Own(role0[p], p, d) then Free else role0[p]
  {
    forall p | p in role0
      ensures PageWithin(role0[p], mem0[p], role[p], mem[p], p, d, None)
      ensures role[p] == if Own(role0[p], p, d) then Free else role0[p]
    {
      assert PageWithin(role0[p], mem0[p], role1[p], mem1[p], p, d, None);
      assert PageFreed(role1[p], mem1[p], role2[p], mem2[p], p, d, NENTRIES);
      assert TableOk(mem1, role1, p);
    }
  }

  // ---------------------------------------------------------------- allocuvm()

  datatype AllocResult = Size(size: nat) | Failed | Panic

  /** A page that is mapped writable for the user and full of zeroes. */
  ghost predicate ZeroPage(mem: Memory, d: nat, v: nat)
    requires v < NVPAGES
  {
    var w := At(mem, d, v);
    Present(w) && Flags(w) == 7 && Addr(w) in mem && mem[Addr(w)] == Filled(0)
  }

  ghost predicate ZeroPages(mem: Memory, d: nat, lo: nat, hi: nat) {
    forall v {:trigger At(mem, d, v)} :: lo <= v < hi && v < NVPAGES ==> ZeroPage(mem, d, v)
  }

  /** What allocuvm() has done when it is at page a. */
  ghost predicate Growing(mem0: Memory, role0: Roles, mem: Memory, role: Roles, d: nat, lo: nat, a: nat) {
    Within(mem0, role0, mem, role, d, None) && KeptBut(mem0, mem, d, lo, a) && ZeroPages(mem, d, lo, a)
  }

  /** A page from kalloc(), with the given content. */
  method TakePage(k: Pages, d: nat, content: Page) returns (r: Option<nat>)
    requires IsDir(k, d)
    modifies k
    ensures IsDir(k, d) && KeptBut(old(k.mem), k.mem, d, 0, 0)
    ensures r.None? ==> k.mem == old(k.mem) && k.role == old(k.role) && k.fl == [] && old(k.fl) == []
    ensures r.Some? ==> r.value in k.role && k.role[r.value] == Other && k.mem[r.value] == content
    ensures r.Some? ==> Within(old(k.mem), old(k.role), k.mem, k.role, d, r)
    ensures r.Some? ==>
      old(k.role)[r.value] == Free && k.role == old(k.role)[r.value := Other] && k.mem == old(k.mem)[r.value := content]
    ensures r.Some? ==> |k.fl| + 1 == |old(k.fl)|
  {
    ghost var mem0, role0 := k.mem, k.role;
    r := k.Kalloc();
    KeptRefl(mem0, role0, d);
    if r.Some? {
      var p := r.value;
      ghost var role1 := k.role;
      k.mem := k.mem[p := content];
      PlainChange(mem0, role1, p, content, Other);
      assert role1[p := Other] == role1;
      KeptByPlain(mem0, role0, p, content, d, k.mem);
      UseOk(mem0, role1, k.fl, k.freelist, k.mem, role1);
    }
  }

  lemma GrowTurn(mem0: Memory, role0: Roles, mem1: Memory, role1: Roles, mem2: Memory, role2: Roles, mem: Memory,
                 role: Roles, d: nat, lo: nat, a: nat, p: nat)
    requires lo <= a < KERNPAGE && Growing(mem0, role0, mem1, role1, d, lo, a)
    requires Within(mem1, role1, mem2, role2, d, Some(p)) && KeptBut(mem1, mem2, d, 0, 0) && p in mem2
    requires mem2[p] == Filled(0)
    requires Placed(mem2, role2, mem, role, d, a, p) && At(mem, d, a) == Entry(p, 6)
    ensures Growing(mem0, role0, mem, role, d, lo, a + 1)
  {
    WithinPut(mem1, role1, mem2, role2, mem, role, d, p);
    WithinTrans(mem0, role0, mem1, role1, mem, role, d, None);
    KeptWiden(mem0, mem1, d, lo, a, lo, a + 1);
    KeptWiden(mem1, mem2, d, 0, 0, lo, a + 1);
    KeptWiden(mem2, mem, d, a, a + 1, lo, a + 1);
    KeptTrans(mem0, mem1, mem2, d, lo, a + 1);
    KeptTrans(mem0, mem2, mem, d, lo, a + 1);
    ZeroNext(mem1, mem2, mem, d, lo, a, p);
  }

  lemma ZeroNext(mem1: Memory, mem2: Memory, mem: Memory, d: nat, lo: nat, a: nat, p: nat)
    requires lo <= a < KERNPAGE && ZeroPages(mem1, d, lo, a) && KeptBut(mem1, mem2, d, 0, 0)
    requires KeptBut(mem2, mem, d, a, a + 1)
    requires At(mem, d, a) == Entry(p, 6) && p in mem && mem[p] == Filled(0)
    ensures ZeroPages(mem, d, lo, a + 1)
  {
    KeptWiden(mem1, mem2, d, 0, 0, a, a + 1);
    KeptTrans(mem1, mem2, mem, d, a, a + 1);
    forall v | lo <= v < a + 1 && v < NVPAGES ensures ZeroPage(mem, d, v) {
      ZeroStays(mem1, mem, d, lo, a, v);
    }
  }

  lemma ZeroStays(mem1: Memory, mem: Memory, d: nat, lo: nat, a: nat, v: nat)
    requires ZeroPages(mem1, d, lo, a) && KeptBut(mem1, mem, d, a, a + 1) && v < NVPAGES && a < KERNPAGE
    ensures lo <= v < a ==> ZeroPage(mem, d, v)
  {
    if lo <= v < a {
      KeptAt(mem1, mem, d, a, a + 1, v);
      assert ZeroPage(mem1, d, v);
    }
  }

  /** One turn of the loop of allocuvm().  Without a table for the page, the page is
      left in the caller's hand. */
  method AllocTurn(k: Pages, d: nat, a: nat, ghost lo: nat, ghost mem0: Memory,
                   ghost role0: Roles) returns (r: MapResult, hand: Option<nat>)
    requires IsDir(k, d) && lo <= a < KERNPAGE && Growing(mem0, role0, k.mem, k.role, d, lo, a)
    modifies k
    ensures IsDir(k, d)
    ensures r == Remap <==> Present(At(old(k.mem), d, a)) && old(k.fl) != []
    ensures r == Mapped ==> Growing(mem0, role0, k.mem, k.role, d, lo, a + 1)
    ensures r == NoMemory ==> Within(mem0, role0, k.mem, k.role, d, hand) && KeptBut(mem0, k.mem, d, lo, a)
    ensures r == NoMemory && hand.Some? ==> hand.value in k.role && k.role[hand.value] == Other
    ensures if r == NoMemory then |old(k.fl)| < 2 else |old(k.fl)| <= |k.fl| + 2
  {
    ghost var mem1, role1 := k.mem, k.role;
    hand := TakePage(k, d, Filled(0));
    if hand.None? {
      return NoMemory, None;
    }
    ghost var mem2, role2 := k.mem, k.role;
    assert At(mem2, d, a) == At(mem1, d, a);
    r := MapPage(k, d, a, hand.value, 6);
    if r == Mapped {
      GrowTurn(mem0, role0, mem1, role1, mem2, role2, k.mem, k.role, d, lo, a, hand.value);
    } else {
      HandKept(mem0, role0, mem1, role1, mem2, role2, k.mem, k.role, d, lo, a, hand.value);
    }
  }

  lemma HandKept(mem0: Memory, role0: Roles, mem1: Memory, role1: Roles, mem2: Memory, role2: Roles, mem: Memory,
                 role: Roles, d: nat, lo: nat, a: nat, p: nat)
    requires Within(mem0, role0, mem1, role1, d, None) && Within(mem1, role1, mem2, role2, d, Some(p))
    requires Within(mem2, role2, mem, role, d, None)
    requires KeptBut(mem0, mem1, d, lo, a) && KeptBut(mem1, mem2, d, 0, 0) && KeptBut(mem2, mem, d, 0, 0) && p in role2
    requires role2[p] == Other
    ensures Within(mem0, role0, mem, role, d, Some(p)) && KeptBut(mem0, mem, d, lo, a) && role[p] == Other
  {
    WithinTrans(mem1, role1, mem2, role2, mem, role, d, Some(p));
    WithinHand(mem0, role0, mem1, role1, mem, role, d, p);
    KeptTrans(mem1, mem2, mem, d, 0, 0);
    KeptWiden(mem1, mem, d, 0, 0, lo, a);
    KeptTrans(mem0, mem1, mem, d, lo, a);
  }

  lemma WithinHand(mem0: Memory, role0: Roles, mem1: Memory, role1: Roles, mem2: Memory, role2: Roles, d: nat, p: nat)
    requires Within(mem0, role0, mem1, role1, d, None) && Within(mem1, role1, mem2, role2, d, Some(p)) && p in role1
    ensures Within(mem0, role0, mem2, role2, d, Some(p)) && role2[p] == Other
  {
    forall q | q in role0 ensures PageWithin(role0[q], mem0[q], role2[q], mem2[q], q, d, Some(p)) {
      assert PageWithin(role0[q], mem0[q], role1[q], mem1[q], q, d, None);
      assert PageWithin(role1[q], mem1[q], role2[q], mem2[q], q, d, Some(p));
    }
    assert PageWithin(role1[p], mem1[p], role2[p], mem2[p], p, d, Some(p));
  }

  /** The cleanup of allocuvm(): deallocuvm(pgdir, newsz, oldsz), and kfree() of the
      page in hand. */
  method GiveUp(k: Pages, d: nat, oldsz: nat, newsz: nat, hand: Option<nat>, ghost a: nat, ghost mem0: Memory,
                ghost role0: Roles)
    requires IsDir(k, d) && oldsz <= newsz < KERNBASE && Up(oldsz) <= a < Up(newsz)
    requires hand.Some? ==> hand.value in k.role && k.role[hand.value] == Other
    requires Within(mem0, role0, k.mem, k.role, d, hand) && KeptBut(mem0, k.mem, d, Up(oldsz), a)
    modifies k
    ensures IsDir(k, d) && Within(mem0, role0, k.mem, k.role, d, None)
    ensures KeptBut(mem0, k.mem, d, 0, 0) <==> Unmapped(mem0, d, Up(oldsz), Up(newsz))
  {
    ghost var mem1, role1 := k.mem, k.role;
    var size := Deallocuvm(k, d, newsz, oldsz);
    ghost var mem2, role2 := k.mem, k.role;
    WithinTrans(mem0, role0, mem1, role1, mem2, role2, d, hand);
    KeptWiden(mem0, mem1, d, Up(oldsz), a, Up(oldsz), Up(newsz));
    KeptTrans(mem0, mem1, mem2, d, Up(oldsz), Up(newsz));
    if hand.Some? {
      assert PageWithin(role1[hand.value], mem1[hand.value], role2[hand.value], mem2[hand.value], hand.value, d, None);
      k.Release(hand.value);
      PutBack(mem0, role0, mem2, role2, k.mem, k.role, d, Up(oldsz), Up(newsz), hand.value);
    }
    RestoredIff(mem0, k.mem, d, Up(oldsz), Up(newsz));
  }

  lemma PutBack(mem0: Memory, role0: Roles, mem2: Memory, role2: Roles, mem: Memory, role: Roles, d: nat, lo: nat,
                hi: nat, p: nat)
    requires Sound(mem2, role2) && d in role2 && role2[d] == Dir && p in role2 && role2[p] == Other
    requires Within(mem0, role0, mem2, role2, d, Some(p)) && KeptBut(mem0, mem2, d, lo, hi) && Unmapped(mem2, d, lo, hi)
    requires role == role2[p := Free] && p in mem && mem == mem2[p := mem[p]]
    ensures Within(mem0, role0, mem, role, d, None) && KeptBut(mem0, mem, d, lo, hi) && Unmapped(mem, d, lo, hi)
  {
    KeptByPlain(mem2, role2, p, mem[p], d, mem);
    WithinPut(mem0, role0, mem2, role2, mem, role, d, p);
    KeptWiden(mem2, mem, d, 0, 0, lo, hi);
    KeptTrans(mem0, mem2, mem, d, lo, hi);
    forall v | lo <= v < hi && v < NVPAGES ensures At(mem, d, v) == 0 {
      assert At(mem2, d, v) == 0 && Kept(mem2, mem, d, v);
    }
  }

  /** Clearing pages restores the address space if and only if none was mapped. */
  lemma RestoredIff(mem0: Memory, mem: Memory, d: nat, lo: nat, hi: nat)
    requires KeptBut(mem0, mem, d, lo, hi) && Unmapped(mem, d, lo, hi) && hi <= NVPAGES
    ensures KeptBut(mem0, mem, d, 0, 0) <==> Unmapped(mem0, d, lo, hi)
  {
    if KeptBut(mem0, mem, d, 0, 0) {
      forall v | lo <= v < hi && v < NVPAGES ensures At(mem0, d, v) == 0 {
        assert At(mem, d, v) == 0 && Kept(mem0, mem, d, v);
      }
    }
    if Unmapped(mem0, d, lo, hi) {
      forall v | 0 <= v < NVPAGES ensures Kept(mem0, mem, d, v) {
        assert lo <= v < hi ==> At(mem0, d, v) == 0 && At(mem, d, v) == 0;
        assert At(mem, d, v) == At(mem, d, v);
      }
    }
  }

  /** allocuvm(): the pages from oldsz to newsz are mapped to new zeroed frames.  When
      memory runs out, everything is as it was if and only if none of these pages was
      mapped; a page that was can also stop the kernel.  Two free pages for each page
      are enough memory. */
  method Allocuvm(k: Pages, d: nat, oldsz: nat, newsz: nat) returns (r: AllocResult)
    requires IsDir(k, d)
    modifies k
    ensures r != Panic ==> IsDir(k, d) && Within(old(k.mem), old(k.role), k.mem, k.role, d, None)
    ensures r == Panic ==> newsz < KERNBASE && !Unmapped(old(k.mem), d, Up(oldsz), Up(newsz))
    ensures r.Size? ==> newsz < KERNBASE && r.size == if newsz < oldsz then oldsz else newsz
    ensures r.Size? ==>
      KeptBut(old(k.mem), k.mem, d, Up(oldsz), Up(newsz)) &&
      (oldsz <= newsz ==> ZeroPages(k.mem, d, Up(oldsz), Up(newsz)))
    ensures r == Failed ==>
      (KeptBut(old(k.mem), k.mem, d, 0, 0) <==> newsz >= KERNBASE || Unmapped(old(k.mem), d, Up(oldsz), Up(newsz)))
    ensures r == Failed ==> newsz >= KERNBASE || |old(k.fl)| < 2 * (Up(newsz) - Up(oldsz))
  {
    ghost var mem0, role0 := k.mem, k.role;
    WithinRefl(mem0, role0, d);
    KeptRefl(mem0, role0, d);
    KeptWiden(mem0, mem0, d, 0, 0, Up(oldsz), Up(newsz));
    if newsz >= KERNBASE {
      return Failed;
    }
    if newsz < oldsz {
      return Size(oldsz);
    }
    var m := Grow(k, d, oldsz, newsz);
    return if m == Mapped then Size(newsz) else if m == Remap then Panic else Failed;
  }

  lemma GrowStarts(mem: Memory, role: Roles, d: nat, a: nat)
    requires Sound(mem, role) && d in role && role[d] == Dir
    ensures Growing(mem, role, mem, role, d, a, a)
  {
    WithinRefl(mem, role, d);
    KeptRefl(mem, role, d);
    KeptWiden(mem, mem, d, 0, 0, a, a);
  }

  lemma StillAsBefore(mem0: Memory, role0: Roles, mem: Memory, role: Roles, d: nat, lo: nat, hi: nat, a: nat)
    requires Growing(mem0, role0, mem, role, d, lo, a) && lo <= a < hi <= NVPAGES
    ensures Present(At(mem, d, a)) ==> !Unmapped(mem0, d, lo, hi)
  {
    assert Kept(mem0, mem, d, a) && At(mem0, d, a) == At(mem, d, a);
  }

  /** What holds in the loop of allocuvm(), which began with `free` free pages. */
  ghost predicate GrowState(k: Pages, mem0: Memory, role0: Roles, free: nat, d: nat, lo: nat, a: nat)
    reads k
  {
    lo <= a && IsDir(k, d) && Growing(mem0, role0, k.mem, k.role, d, lo, a) && free <= |k.fl| + 2 * (a - lo)
  }

  /** The way allocuvm() fails: everything is as it was if and only if nothing was
      mapped, and there were not two free pages for each page. */
  ghost predicate GaveUp(k: Pages, mem0: Memory, role0: Roles, free: nat, d: nat, lo: nat, hi: nat)
    reads k
  {
    && IsDir(k, d) && Within(mem0, role0, k.mem, k.role, d, None) && lo <= hi && free < 2 * (hi - lo)
    && (KeptBut(mem0, k.mem, d, 0, 0) <==> Unmapped(mem0, d, lo, hi))
  }

  /** One turn of the loop of allocuvm(), with the cleanup if it fails. */
  method GrowStep(k: Pages, d: nat, oldsz: nat, newsz: nat, a: nat, ghost free: nat, ghost mem0: Memory,
                  ghost role0: Roles) returns (m: MapResult)
    requires oldsz <= newsz < KERNBASE && a < Up(newsz) && GrowState(k, mem0, role0, free, d, Up(oldsz), a)
    modifies k
    ensures m == Mapped ==> GrowState(k, mem0, role0, free, d, Up(oldsz), a + 1)
    ensures m == Remap ==> !Unmapped(mem0, d, Up(oldsz), Up(newsz))
    ensures m == NoMemory ==> GaveUp(k, mem0, role0, free, d, Up(oldsz), Up(newsz))
  {
    StillAsBefore(mem0, role0, k.mem, k.role, d, Up(oldsz), Up(newsz), a);
    var hand;
    m, hand := AllocTurn(k, d, a, Up(oldsz), mem0, role0);
    if m == NoMemory {
      GiveUp(k, d, oldsz, newsz, hand, a, mem0, role0);
    }
  }

  /** The loop of allocuvm(). */
  method Grow(k: Pages, d: nat, oldsz: nat, newsz: nat) returns (m: MapResult)
    requires IsDir(k, d) && oldsz <= newsz < KERNBASE
    modifies k
    ensures m == Mapped ==> GrowState(k, old(k.mem), old(k.role), |old(k.fl)|, d, Up(oldsz), Up(newsz))
    ensures m == Remap ==> !Unmapped(old(k.mem), d, Up(oldsz), Up(newsz))
    ensures m == NoMemory ==> GaveUp(k, old(k.mem), old(k.role), |old(k.fl)|, d, Up(oldsz), Up(newsz))
  {
    ghost var mem0, role0, free := k.mem, k.role, |k.fl|;
    var a, lo, hi := Up(oldsz), Up(oldsz), Up(newsz);
    GrowStarts(mem0, role0, d, a);
    while a < hi
      invariant a <= hi && GrowState(k, mem0, role0, free, d, lo, a)
    {
      m := GrowStep(k, d, oldsz, newsz, a, free, mem0, role0);
      if m != Mapped {
        return;
      }
      a := a + 1;
    }
    return Mapped;
  }
}
