/**
  Physical pages as kalloc.c and vm.c use them: a page is free, or a page
  directory, or a page table, or user memory, or something else of the kernel's.
  Entries are the 32-bit words of the hardware: a page number and twelve flags.
*/
module PageTables {

  const NENTRIES: nat := 1024
  const PGSIZE: nat := 4096

  /** Directory entries from this one on map the kernel. */
  const KERNPDX: nat := 512

  type Page = s: seq<nat> | |s| == NENTRIES witness seq(NENTRIES, _ => 0)

  /** The page with the same word everywhere: memset(). */
  function Filled(w: nat): (p: Page)
    ensures forall j :: 0 <= j < NENTRIES ==> p[j] == w
  {
    seq(NENTRIES, _ => w)
  }

  // ---------------------------------------------------------------- entries

  predicate Present(w: nat) {
    w % 2 == 1
  }

  /** PTE_ADDR, as a page number. */
  function Addr(w: nat): nat {
    w / PGSIZE
  }

  /** PTE_FLAGS */
  function Flags(w: nat): nat {
    w % PGSIZE
  }

  /** pa | perm | PTE_P */
  function Entry(page: nat, perm: nat): (w: nat)
    requires perm < PGSIZE
    ensures Present(w) && Addr(w) == page && Flags(w) == perm + (if perm % 2 == 1 then 0 else 1)
  {
    page * PGSIZE + perm + (if perm % 2 == 1 then 0 else 1)
  }

  // ---------------------------------------------------------------- ownership

  /** Table(d, i) is the page table of entry i of directory d, User(d, i, j) the user
      page of entry j of that table; Dying(d, i) is such a table while d is freed. */
  datatype Role = Free | Other | Dir | Table(d: nat, i: nat) | User(d: nat, i: nat, j: nat) | Dying(d: nat, i: nat)

  type Memory = map<nat, Page>
  type Roles = map<nat, Role>

  predicate Plain(r: Role) {
    r.Free? || r.Other? || r.Dying?
  }

  /** A directory entry that is present leads to the table for that entry. */
  predicate PdeOk(mem: Memory, role: Roles, d: nat, i: nat)
    requires d in mem && i < NENTRIES
  {
    Present(mem[d][i]) ==> Addr(mem[d][i]) in role && role[Addr(mem[d][i])] == Table(d, i)
  }

  /** A table entry below the kernel that is present leads to a user page for it. */
  predicate PteOk(mem: Memory, role: Roles, t: nat, j: nat)
    requires t in mem && t in role && role[t].Table? && j < NENTRIES
  {
    Present(mem[t][j]) && role[t].i < KERNPDX ==>
      Addr(mem[t][j]) in role && role[Addr(mem[t][j])] == User(role[t].d, role[t].i, j)
  }

  /** The entry of directory d leads to page t. */
  predicate LeadsTo(mem: Memory, role: Roles, d: nat, i: nat, t: nat) {
    d in mem && d in role && role[d] == Dir && i < NENTRIES && Present(mem[d][i]) && Addr(mem[d][i]) == t
  }

  predicate TableOk(mem: Memory, role: Roles, t: nat)
    requires t in role
  {
    role[t].Table? ==> LeadsTo(mem, role, role[t].d, role[t].i, t)
  }

  /** Entry j of table t leads to page p. */
  predicate Maps(mem: Memory, role: Roles, t: nat, d: nat, i: nat, j: nat, p: nat) {
    t in mem && t in role && role[t] == Table(d, i) && i < KERNPDX &&
    j < NENTRIES && Present(mem[t][j]) && Addr(mem[t][j]) == p
  }

  predicate UserOk(mem: Memory, role: Roles, p: nat)
    requires p in role
  {
    role[p].User? ==>
      var u := role[p];
      u.d in mem && u.i < NENTRIES && Maps(mem, role, Addr(mem[u.d][u.i]), u.d, u.i, u.j, p)
  }

  /** Entries and roles agree, in both directions: each table and each user page has
      exactly one place, in one directory. */
  ghost predicate Sound(mem: Memory, role: Roles) {
    && mem.Keys == role.Keys && 0 !in role
    && (forall d, i {:trigger PdeOk(mem, role, d, i)} :: d in mem && role[d] == Dir && 0 <= i < NENTRIES ==>
          PdeOk(mem, role, d, i))
    && (forall t, j {:trigger PteOk(mem, role, t, j)} :: t in mem && role[t].Table? && 0 <= j < NENTRIES ==>
          PteOk(mem, role, t, j))
    && (forall t {:trigger TableOk(mem, role, t)} :: t in role ==> TableOk(mem, role, t))
    && (forall p {:trigger UserOk(mem, role, p)} :: p in role ==> UserOk(mem, role, p))
  }

  /** What the hardware finds for entry j of the table of entry i; 0 if that or the
      table is not present. */
  function Pte(mem: Memory, d: nat, i: nat, j: nat): nat
    requires i < NENTRIES && j < NENTRIES
  {
    if d in mem && Present(mem[d][i]) && Addr(mem[d][i]) in mem && Present(mem[Addr(mem[d][i])][j])
    then mem[Addr(mem[d][i])][j]
    else 0
  }

  /** The place of a user page: its directory and its table. */
  lemma UserPlace(mem: Memory, role: Roles, p: nat)
    requires Sound(mem, role) && p in role && role[p].User?
    ensures var u := role[p]; u.d in role && role[u.d] == Dir && u.d in mem && u.i < KERNPDX && u.j < NENTRIES
    ensures var u := role[p];
      LeadsTo(mem, role, u.d, u.i, Addr(mem[u.d][u.i])) && Maps(mem, role, Addr(mem[u.d][u.i]), u.d, u.i, u.j, p)
  {
    assert UserOk(mem, role, p);
    assert TableOk(mem, role, Addr(mem[role[p].d][role[p].i]));
  }

  // ---------------------------------------------------------------- pages that no entry leads to

  /** A page that is free or the kernel's own may change in any way. */
  lemma PlainChange(mem: Memory, role: Roles, p: nat, page: Page, r: Role)
    requires Sound(mem, role) && p in role && Plain(role[p]) && Plain(r)
    ensures Sound(mem[p := page], role[p := r])
  {
    var mem', role' := mem[p := page], role[p := r];
    forall d, i | d in mem' && role'[d] == Dir && 0 <= i < NENTRIES ensures PdeOk(mem', role', d, i) {
      assert PdeOk(mem, role, d, i);
    }
    forall t, j | t in mem' && role'[t].Table? && 0 <= j < NENTRIES ensures PteOk(mem', role', t, j) {
      assert PteOk(mem, role, t, j);
    }
    forall t | t in role' ensures TableOk(mem', role', t) {
      assert TableOk(mem, role, t);
    }
    forall q | q in role' ensures UserOk(mem', role', q) {
      if role'[q].User? {
        UserPlace(mem, role, q);
      }
    }
  }

  lemma PlainView(mem: Memory, role: Roles, p: nat, page: Page, d: nat, i: nat, j: nat)
    requires Sound(mem, role) && p in role && Plain(role[p]) && d in role && role[d] == Dir && i < NENTRIES
    requires j < NENTRIES
    ensures Pte(mem[p := page], d, i, j) == Pte(mem, d, i, j)
  {
    assert PdeOk(mem, role, d, i);
  }

  // ---------------------------------------------------------------- new directories and tables

  /** A page of zeroes becomes a directory. */
  lemma AddDir(mem: Memory, role: Roles, d: nat)
    requires Sound(mem, role) && d in role && role[d] == Other && mem[d] == Filled(0)
    ensures Sound(mem, role[d := Dir])
  {
    var role' := role[d := Dir];
    forall x, i | x in mem && role'[x] == Dir && 0 <= i < NENTRIES ensures PdeOk(mem, role', x, i) {
      assert x != d ==> PdeOk(mem, role, x, i);
    }
    forall t, j | t in mem && role'[t].Table? && 0 <= j < NENTRIES ensures PteOk(mem, role', t, j) {
      assert PteOk(mem, role, t, j);
    }
    forall t | t in role' ensures TableOk(mem, role', t) {
      assert TableOk(mem, role, t);
    }
    forall q | q in role' ensures UserOk(mem, role', q) {
      if role'[q].User? {
        UserPlace(mem, role, q);
      }
    }
  }

  /** walkpgdir() with alloc: a page of zeroes becomes the table of entry i. */
  ghost predicate AddsTable(mem: Memory, role: Roles, d: nat, i: nat, t: nat, mem': Memory, role': Roles) {
    && d in mem && d in role && role[d] == Dir && i < NENTRIES && !Present(mem[d][i])
    && t in mem && t in role && role[t] == Other && mem[t] == Filled(0)
    && mem' == mem[d := mem[d][i := Entry(t, 7)]] && role' == role[t := Table(d, i)]
  }

  /** No page is the table of an entry that is not present. */
  lemma NoTable(mem: Memory, role: Roles, d: nat, i: nat, t: nat)
    requires Sound(mem, role) && d in mem && i < NENTRIES && !Present(mem[d][i]) && t in role
    ensures role[t] != Table(d, i) && !(role[t].User? && role[t].d == d && role[t].i == i)
  {
    assert TableOk(mem, role, t);
    if role[t].User? {
      UserPlace(mem, role, t);
    }
  }

  lemma AddTable(mem: Memory, role: Roles, d: nat, i: nat, t: nat, mem': Memory, role': Roles)
    requires Sound(mem, role) && AddsTable(mem, role, d, i, t, mem', role')
    ensures Sound(mem', role')
  {
    forall x, k | x in mem' && role'[x] == Dir && 0 <= k < NENTRIES ensures PdeOk(mem', role', x, k) {
      assert PdeOk(mem, role, x, k);
    }
    forall x, j | x in mem' && role'[x].Table? && 0 <= j < NENTRIES ensures PteOk(mem', role', x, j) {
      assert x != t ==> PteOk(mem, role, x, j);
    }
    forall x | x in role' ensures TableOk(mem', role', x) {
      assert TableOk(mem, role, x);
      NoTable(mem, role, d, i, x);
    }
    forall q | q in role' ensures UserOk(mem', role', q) {
      NoTable(mem, role, d, i, q);
      if role'[q].User? {
        UserPlace(mem, role, q);
      }
    }
  }

  lemma AddTableView(mem: Memory, role: Roles, d: nat, i: nat, t: nat, mem': Memory, role': Roles, x: nat, k: nat,
                     j: nat)
    requires Sound(mem, role) && AddsTable(mem, role, d, i, t, mem', role') && x in role && role[x] == Dir
    requires k < NENTRIES && j < NENTRIES
    ensures Pte(mem', x, k, j) == Pte(mem, x, k, j)
  {
    assert PdeOk(mem, role, x, k);
  }

  // ---------------------------------------------------------------- table entries

  /** mappages(): entry j of table t, which was not present, becomes w. */
  ghost predicate SetsEntry(mem: Memory, role: Roles, t: nat, j: nat, w: nat, mem': Memory, role': Roles) {
    && t in mem && t in role && role[t].Table? && j < NENTRIES && !Present(mem[t][j]) && Present(w)
    && mem' == mem[t := mem[t][j := w]]
    && (if role[t].i < KERNPDX then
          Addr(w) in role && role[Addr(w)] == Other && role' == role[Addr(w) := User(role[t].d, role[t].i, j)]
        else role' == role)
  }

  lemma NoUser(mem: Memory, role: Roles, t: nat, j: nat, q: nat)
    requires Sound(mem, role) && t in mem && t in role && role[t].Table? && j < NENTRIES && !Present(mem[t][j])
    requires q in role
    ensures role[q] != User(role[t].d, role[t].i, j)
  {
    assert TableOk(mem, role, t);
    if role[q].User? {
      UserPlace(mem, role, q);
    }
  }

  lemma SetEntry(mem: Memory, role: Roles, t: nat, j: nat, w: nat, mem': Memory, role': Roles)
    requires Sound(mem, role) && SetsEntry(mem, role, t, j, w, mem', role')
    ensures Sound(mem', role')
  {
    forall x, k | x in mem' && role'[x] == Dir && 0 <= k < NENTRIES ensures PdeOk(mem', role', x, k) {
      assert PdeOk(mem, role, x, k);
    }
    forall x, k | x in mem' && role'[x].Table? && 0 <= k < NENTRIES ensures PteOk(mem', role', x, k) {
      assert PteOk(mem, role, x, k);
    }
    forall x | x in role' ensures TableOk(mem', role', x) {
      assert TableOk(mem, role, x);
    }
    forall q | q in role' ensures UserOk(mem', role', q) {
      SetEntryUser(mem, role, t, j, w, mem', role', q);
    }
  }

  lemma SetEntryUser(mem: Memory, role: Roles, t: nat, j: nat, w: nat, mem': Memory, role': Roles, q: nat)
    requires Sound(mem, role) && SetsEntry(mem, role, t, j, w, mem', role') && q in role'
    ensures UserOk(mem', role', q)
  {
    assert TableOk(mem, role, t);
    NoUser(mem, role, t, j, q);
    if role[q].User? {
      UserPlace(mem, role, q);
    }
  }

  /** Two entries of directories never share a table. */
  lemma OneTable(mem: Memory, role: Roles, t: nat, x: nat, k: nat)
    requires Sound(mem, role) && t in role && role[t].Table? && x in role && role[x] == Dir && k < NENTRIES && x in mem
    ensures Present(mem[x][k]) && Addr(mem[x][k]) == t <==> x == role[t].d && k == role[t].i
  {
    assert PdeOk(mem, role, x, k);
    assert TableOk(mem, role, t);
  }

  lemma SetEntryView(mem: Memory, role: Roles, t: nat, j: nat, w: nat, mem': Memory, role': Roles, x: nat, k: nat,
                     l: nat)
    requires Sound(mem, role) && SetsEntry(mem, role, t, j, w, mem', role') && x in role && role[x] == Dir
    requires k < NENTRIES && l < NENTRIES
    ensures Pte(mem', x, k, l) == if x == role[t].d && k == role[t].i && l == j then w else Pte(mem, x, k, l)
  {
    OneTable(mem, role, t, x, k);
  }

  /** deallocuvm(): the user page p of entry j is freed and the entry cleared. */
  ghost predicate DropsUser(mem: Memory, role: Roles, t: nat, j: nat, p: nat, page: Page, mem': Memory, role': Roles) {
    && t in mem && t in role && role[t].Table? && role[t].i < KERNPDX && j < NENTRIES && Present(mem[t][j])
    && Addr(mem[t][j]) == p
    && p in mem && p in role && role[p] == User(role[t].d, role[t].i, j)
    && mem' == mem[p := page][t := mem[t][j := 0]] && role' == role[p := Free]
  }

  lemma DropUser(mem: Memory, role: Roles, t: nat, j: nat, p: nat, page: Page, mem': Memory, role': Roles)
    requires Sound(mem, role) && DropsUser(mem, role, t, j, p, page, mem', role')
    ensures Sound(mem', role')
  {
    forall x, k | x in mem' && role'[x] == Dir && 0 <= k < NENTRIES ensures PdeOk(mem', role', x, k) {
      assert PdeOk(mem, role, x, k);
    }
    forall x, k | x in mem' && role'[x].Table? && 0 <= k < NENTRIES ensures PteOk(mem', role', x, k) {
      DropUserPte(mem, role, t, j, p, page, mem', role', x, k);
    }
    forall x | x in role' ensures TableOk(mem', role', x) {
      assert TableOk(mem, role, x);
    }
    forall q | q in role' ensures UserOk(mem', role', q) {
      assert TableOk(mem, role, t);
      if role'[q].User? {
        UserPlace(mem, role, q);
      }
    }
  }

  lemma DropUserPte(mem: Memory, role: Roles, t: nat, j: nat, p: nat, page: Page, mem': Memory, role': Roles, x: nat,
                    k: nat)
    requires Sound(mem, role) && DropsUser(mem, role, t, j, p, page, mem', role') && x in mem' && role'[x].Table?
    requires k < NENTRIES
    ensures PteOk(mem', role', x, k)
  {
    assert PteOk(mem, role, x, k);
    assert TableOk(mem, role, x) && TableOk(mem, role, t);
  }

  lemma DropUserView(mem: Memory, role: Roles, t: nat, j: nat, p: nat, page: Page, mem': Memory, role': Roles, x: nat,
                     k: nat, l: nat)
    requires Sound(mem, role) && DropsUser(mem, role, t, j, p, page, mem', role') && x in role && role[x] == Dir
    requires k < NENTRIES && l < NENTRIES
    ensures Pte(mem', x, k, l) == if x == role[t].d && k == role[t].i && l == j then 0 else Pte(mem, x, k, l)
  {
    OneTable(mem, role, t, x, k);
    assert PdeOk(mem, role, x, k);
  }

  // ---------------------------------------------------------------- the end of a directory

  /** The roles once directory d, without user pages, is being freed. */
  function Buried(role: Roles, d: nat): (r: Roles)
    ensures r.Keys == role.Keys
    ensures forall p :: p in role ==> r[p] == BuriedRole(role[p], p, d)
  {
    map p | p in role :: BuriedRole(role[p], p, d)
  }

  function BuriedRole(r: Role, p: nat, d: nat): Role {
    if p == d then Other else if r.Table? && r.d == d then Dying(d, r.i) else r
  }

  lemma Bury(mem: Memory, role: Roles, d: nat)
    requires Sound(mem, role) && d in role && role[d] == Dir
    requires forall p :: p in role && role[p].User? ==> role[p].d != d
    ensures Sound(mem, Buried(role, d))
  {
    var role' := Buried(role, d);
    forall x, k | x in mem && role'[x] == Dir && 0 <= k < NENTRIES ensures PdeOk(mem, role', x, k) {
      assert PdeOk(mem, role, x, k);
    }
    forall x, k | x in mem && role'[x].Table? && 0 <= k < NENTRIES ensures PteOk(mem, role', x, k) {
      assert PteOk(mem, role, x, k);
    }
    forall x | x in role' ensures TableOk(mem, role', x) {
      assert TableOk(mem, role, x);
    }
    forall q | q in role' ensures UserOk(mem, role', q) {
      if role'[q].User? {
        UserPlace(mem, role, q);
      }
    }
  }
}
