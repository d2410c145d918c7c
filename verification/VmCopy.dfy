/** vm.c: setupkvm() and copyuvm(). */
module VmCopy {
  import opened Options
  import opened PageTables
  import opened AddressSpaces
  import opened Kalloc
  import opened Vm

  // ---------------------------------------------------------------- the kernel's part

  /** A line of kmap[], in pages. */
  datatype Range = Range(virt: nat, start: nat, n: nat, perm: nat)

  const EXTMEM: nat := 0x100
  const PHYSTOP: nat := 0xE000
  const DEVSPACE: nat := 0xFE000

  /** kmap[], for a kernel whose data begins at page `data`. */
  function Kmap(data: nat): seq<Range>
    requires KERNPAGE + EXTMEM < data < KERNPAGE + PHYSTOP
  {
    [Range(KERNPAGE, 0, EXTMEM, 2),
     Range(KERNPAGE + EXTMEM, EXTMEM, data - KERNPAGE - EXTMEM, 0),
     Range(data, data - KERNPAGE, KERNPAGE + PHYSTOP - data, 2),
     Range(DEVSPACE, DEVSPACE, NVPAGES - DEVSPACE, 2)]
  }

  predicate In(r: Range, v: nat) {
    r.virt <= v < r.virt + r.n
  }

  predicate RangeOk(r: Range) {
    KERNPAGE <= r.virt && r.virt + r.n <= NVPAGES && r.perm < PGSIZE
  }

  /** The entry that the lines give virtual page v; 0 if none does. */
  function Expect(rs: seq<Range>, v: nat): nat
    requires forall x :: 0 <= x < |rs| ==> RangeOk(rs[x])
  {
    if rs == [] then 0
    else
      var r := rs[|rs| - 1];
      assert RangeOk(rs[|rs| - 1]);
      if In(r, v) then Entry(r.start + v - r.virt, r.perm) else Expect(rs[..|rs| - 1], v)
  }

  /** The directory shows what the lines say and, up to page b of line r, that too. */
  ghost predicate Shows(mem: Memory, d: nat, rs: seq<Range>, r: Range, b: nat)
    requires RangeOk(r) && forall x :: 0 <= x < |rs| ==> RangeOk(rs[x])
  {
    forall v {:trigger At(mem, d, v)} :: 0 <= v < NVPAGES ==>
      At(mem, d, v) == if r.virt <= v < r.virt + b then Entry(r.start + v - r.virt, r.perm) else Expect(rs, v)
  }

  /** mappages() for a line of kmap[]: none of its pages is mapped twice. */
  method MapRange(k: Pages, d: nat, r: Range, ghost rs: seq<Range>, ghost mem0: Memory,
                  ghost role0: Roles) returns (ok: bool)
    requires IsDir(k, d) && RangeOk(r) && (forall x :: 0 <= x < |rs| ==> RangeOk(rs[x]))
    requires forall v :: In(r, v) ==> Expect(rs, v) == 0
    requires Shows(k.mem, d, rs, r, 0) && Within(mem0, role0, k.mem, k.role, d, None)
    modifies k
    ensures IsDir(k, d) && Within(mem0, role0, k.mem, k.role, d, None) && Pool(k, d) == old(Pool(k, d))
    ensures if ok then Shows(k.mem, d, rs, r, r.n) else k.fl == []
  {
    var b := 0;
    while b < r.n
      invariant 0 <= b <= r.n && IsDir(k, d) && Within(mem0, role0, k.mem, k.role, d, None) && Shows(k.mem, d, rs, r, b)
      invariant Pool(k, d) == old(Pool(k, d))
    {
      ok := MapNext(k, d, r, b, rs, mem0, role0);
      if !ok {
        return;
      }
      b := b + 1;
    }
    return true;
  }

  /** A turn of its loop. */
  method MapNext(k: Pages, d: nat, r: Range, b: nat, ghost rs: seq<Range>, ghost mem0: Memory,
                 ghost role0: Roles) returns (ok: bool)
    requires IsDir(k, d) && RangeOk(r) && (forall x :: 0 <= x < |rs| ==> RangeOk(rs[x])) && b < r.n
    requires forall v :: In(r, v) ==> Expect(rs, v) == 0
    requires Shows(k.mem, d, rs, r, b) && Within(mem0, role0, k.mem, k.role, d, None)
    modifies k
    ensures IsDir(k, d) && Within(mem0, role0, k.mem, k.role, d, None) && Pool(k, d) == old(Pool(k, d))
    ensures if ok then Shows(k.mem, d, rs, r, b + 1) else k.fl == []
  {
    ghost var mem1, role1 := k.mem, k.role;
    assert In(r, r.virt + b);
    assert At(k.mem, d, r.virt + b) == 0;
    var m := MapPage(k, d, r.virt + b, r.start + b, r.perm);
    WithinTrans(mem0, role0, mem1, role1, k.mem, k.role, d, None);
    ok := m == Mapped;
    if ok {
      ShowsNext(mem1, k.mem, d, rs, r, b);
    }
  }

  lemma ShowsNext(mem1: Memory, mem: Memory, d: nat, rs: seq<Range>, r: Range, b: nat)
    requires RangeOk(r) && (forall x :: 0 <= x < |rs| ==> RangeOk(rs[x])) && b < r.n && Shows(mem1, d, rs, r, b)
    requires KeptBut(mem1, mem, d, r.virt + b, r.virt + b + 1) && At(mem, d, r.virt + b) == Entry(r.start + b, r.perm)
    ensures Shows(mem, d, rs, r, b + 1)
  {
    forall v | 0 <= v < NVPAGES
      ensures At(mem, d, v) ==
        if r.virt <= v < r.virt + b + 1 then Entry(r.start + v - r.virt, r.perm) else Expect(rs, v)
    {
      if v != r.virt + b {
        assert Kept(mem1, mem, d, v);
      }
    }
  }

  /** The lines do not overlap. */
  lemma KmapDisjoint(data: nat, x: nat, v: nat)
    requires KERNPAGE + EXTMEM < data < KERNPAGE + PHYSTOP && x < 4
    ensures forall y :: 0 <= y < 4 ==> RangeOk(Kmap(data)[y])
    ensures In(Kmap(data)[x], v) ==> Expect(Kmap(data)[..x], v) == 0
  {
    var rs := Kmap(data);
    forall y | 0 <= y < x && In(rs[x], v) ensures !In(rs[y], v) {
    }
    if In(rs[x], v) {
      NotIn(rs[..x], v);
    }
  }

  lemma {:induction false} NotIn(rs: seq<Range>, v: nat)
    requires forall x :: 0 <= x < |rs| ==> RangeOk(rs[x]) && !In(rs[x], v)
    ensures Expect(rs, v) == 0
  {
    if rs != [] {
      NotIn(rs[..|rs| - 1], v);
    }
  }

  const PTE_P: nat := 1
  const PTE_W: nat := 2

  /** The kernel's half: physical page p is at KERNBASE + p, to be written unless it holds the kernel's
      instructions; the devices are where they are; and there is nothing else. */
  predicate KernelEntry(data: nat, v: nat, w: nat) {
    if KERNPAGE <= v < KERNPAGE + PHYSTOP then
      Addr(w) == v - KERNPAGE && Flags(w) == if KERNPAGE + EXTMEM <= v < data then PTE_P else PTE_P + PTE_W
    else if DEVSPACE <= v < NVPAGES then Addr(w) == v && Flags(w) == PTE_P + PTE_W
    else w == 0
  }

  lemma KmapMaps(data: nat, v: nat)
    requires KERNPAGE + EXTMEM < data < KERNPAGE + PHYSTOP
    ensures forall y :: 0 <= y < 4 ==> RangeOk(Kmap(data)[y])
    ensures KernelEntry(data, v, Expect(Kmap(data), v))
  {
    var rs := Kmap(data);
    if KERNPAGE <= v < KERNPAGE + EXTMEM {
      LineMaps(rs, v, 0);
    } else if KERNPAGE + EXTMEM <= v < data {
      LineMaps(rs, v, 1);
    } else if data <= v < KERNPAGE + PHYSTOP {
      LineMaps(rs, v, 2);
    } else if DEVSPACE <= v < NVPAGES {
      LineMaps(rs, v, 3);
    } else {
      NotIn(rs, v);
    }
  }

  /** The last line with v in it says where v is. */
  lemma {:induction false} LineMaps(rs: seq<Range>, v: nat, x: nat)
    requires x < |rs| && In(rs[x], v) && forall y :: 0 <= y < |rs| ==> RangeOk(rs[y])
    requires forall y :: x < y < |rs| ==> !In(rs[y], v)
    ensures Expect(rs, v) == Entry(rs[x].start + v - rs[x].virt, rs[x].perm)
  {
    if x < |rs| - 1 {
      LineMaps(rs[..|rs| - 1], v, x);
    }
  }

  /** A directory that shows exactly the lines. */
  ghost predicate ShowsAll(mem: Memory, d: nat, rs: seq<Range>)
    requires forall x :: 0 <= x < |rs| ==> RangeOk(rs[x])
  {
    forall v {:trigger At(mem, d, v)} :: 0 <= v < NVPAGES ==> At(mem, d, v) == Expect(rs, v)
  }

  /** A directory of zeroes, from a free page. */
  method NewDir(k: Pages) returns (r: Option<nat>)
    requires k.Valid()
    modifies k
    ensures k.Valid()
    ensures r.None? ==> k.role == old(k.role) && old(k.fl) == []
    ensures r.Some? ==> IsDir(k, r.value) && r.value in old(k.role) && old(k.role)[r.value] == Free
    ensures r.Some? ==> Within(old(k.mem), old(k.role), k.mem, k.role, r.value, None) && ShowsAll(k.mem, r.value, [])
    ensures r.Some? ==> Pool(k, r.value) + 1 == |old(k.fl)|
  {
    ghost var mem0, role0 := k.mem, k.role;
    r := k.Kalloc();
    if r.Some? {
      var d := r.value;
      ghost var role1 := k.role;
      k.mem := k.mem[d := Filled(0)];
      k.role := k.role[d := Dir];
      DirMade(mem0, role0, d, role1, k.mem, k.role);
      assert Tables(k.mem[d]) == {};
      UseOk(mem0, role1, k.fl, k.freelist, k.mem, k.role);
    }
  }

  lemma DirMade(mem0: Memory, role0: Roles, d: nat, role1: Roles, mem: Memory, role: Roles)
    requires Sound(mem0, role0) && d in role0 && role0[d] == Free && role1 == role0[d := Other]
    requires mem == mem0[d := Filled(0)] && role == role1[d := Dir]
    ensures Sound(mem, role) && Within(mem0, role0, mem, role, d, None) && ShowsAll(mem, d, [])
  {
    PlainChange(mem0, role0, d, Filled(0), Other);
    AddDir(mem, role1, d);
  }

  /** setupkvm(): a directory with the kernel's mappings and no user page.  When memory
      runs out, every page it took is free again. */
  method Setupkvm(k: Pages, data: nat) returns (r: Option<nat>)
    requires k.Valid() && KERNPAGE + EXTMEM < data < KERNPAGE + PHYSTOP
    modifies k
    ensures k.Valid()
    ensures r.None? ==> k.role == old(k.role) && |old(k.fl)| <= 1 + NENTRIES
    ensures r.Some? ==> IsDir(k, r.value) && r.value in old(k.role) && old(k.role)[r.value] == Free
    ensures r.Some? ==> Pool(k, r.value) + 1 == |old(k.fl)|
    ensures r.Some? ==> Within(old(k.mem), old(k.role), k.mem, k.role, r.value, None)
    ensures forall x :: 0 <= x < 4 ==> RangeOk(Kmap(data)[x])
    ensures r.Some? ==> ShowsAll(k.mem, r.value, Kmap(data))
    ensures r.Some? ==> forall v :: 0 <= v < NVPAGES ==> KernelEntry(data, v, At(k.mem, r.value, v))
  {
    ghost var mem0, role0 := k.mem, k.role;
    KmapDisjoint(data, 0, 0);
    r := NewDir(k);
    if r.None? {
      return;
    }
    var ok := MapLines(k, r.value, data, mem0, role0);
    if !ok {
      TablesBounded(k.mem[r.value]);
      FreeNew(k, r.value, mem0, role0);
      return None;
    }
    KmapShown(k.mem, r.value, data, 0);
  }

  /** Its loop. */
  method MapLines(k: Pages, d: nat, data: nat, ghost mem0: Memory, ghost role0: Roles) returns (ok: bool)
    requires IsDir(k, d) && KERNPAGE + EXTMEM < data < KERNPAGE + PHYSTOP
    requires Within(mem0, role0, k.mem, k.role, d, None) && ShowsAll(k.mem, d, [])
    modifies k
    ensures IsDir(k, d) && Within(mem0, role0, k.mem, k.role, d, None) && Pool(k, d) == old(Pool(k, d))
    ensures forall x :: 0 <= x < 4 ==> RangeOk(Kmap(data)[x])
    ensures if ok then ShowsAll(k.mem, d, Kmap(data)) else k.fl == []
  {
    KmapDisjoint(data, 0, 0);
    var rs := Kmap(data);
    var x := 0;
    while x < 4
      invariant 0 <= x <= 4 && IsDir(k, d) && Within(mem0, role0, k.mem, k.role, d, None)
      invariant ShowsAll(k.mem, d, rs[..x]) && Pool(k, d) == old(Pool(k, d))
    {
      ok := MapLine(k, d, rs, x, data, mem0, role0);
      if !ok {
        return;
      }
      x := x + 1;
    }
    assert rs[..4] == rs;
    return true;
  }

  lemma KmapShown(mem: Memory, d: nat, data: nat, a: nat)
    requires KERNPAGE + EXTMEM < data < KERNPAGE + PHYSTOP && forall y :: 0 <= y < 4 ==> RangeOk(Kmap(data)[y])
    requires forall v :: a <= v < NVPAGES ==> At(mem, d, v) == Expect(Kmap(data), v)
    ensures forall v :: a <= v < NVPAGES ==> KernelEntry(data, v, At(mem, d, v))
  {
    forall v | a <= v < NVPAGES
      ensures KernelEntry(data, v, At(mem, d, v))
    {
      KmapMaps(data, v);
    }
  }

  method MapLine(k: Pages, d: nat, rs: seq<Range>, x: nat, data: nat, ghost mem0: Memory,
                 ghost role0: Roles) returns (ok: bool)
    requires IsDir(k, d) && KERNPAGE + EXTMEM < data < KERNPAGE + PHYSTOP && rs == Kmap(data) && x < 4
    requires (forall y :: 0 <= y < 4 ==> RangeOk(rs[y]))
    requires Within(mem0, role0, k.mem, k.role, d, None) && ShowsAll(k.mem, d, rs[..x])
    modifies k
    ensures IsDir(k, d) && Within(mem0, role0, k.mem, k.role, d, None) && Pool(k, d) == old(Pool(k, d))
    ensures if ok then ShowsAll(k.mem, d, rs[..x + 1]) else k.fl == []
  {
    forall v | In(rs[x], v) ensures Expect(rs[..x], v) == 0 {
      KmapDisjoint(data, x, v);
    }
    ok := MapRange(k, d, rs[x], rs[..x], mem0, role0);
    assert rs[..x + 1][..x] == rs[..x];
  }

  /** freevm() of a directory that was made since role0: its pages were all free. */
  method FreeNew(k: Pages, d: nat, ghost mem0: Memory, ghost role0: Roles)
    requires IsDir(k, d) && Within(mem0, role0, k.mem, k.role, d, None) && Sound(mem0, role0) && d in role0
    requires role0[d] == Free
    modifies k
    ensures k.Valid() && k.role == role0
  {
    ghost var mem1, role1 := k.mem, k.role;
    Freevm(k, d);
    forall p | p in role0 ensures k.role[p] == role0[p] {
      assert PageWithin(role0[p], mem0[p], role1[p], mem1[p], p, d, None);
      NotOwned(mem0, role0, d, p);
    }
  }

  /** A free page is no directory, so nothing belongs to it. */
  lemma NotOwned(mem: Memory, role: Roles, d: nat, p: nat)
    requires Sound(mem, role) && d in role && role[d] == Free && p in role
    ensures !Own(role[p], p, d)
  {
    assert TableOk(mem, role, p);
    if role[p].User? {
      UserPlace(mem, role, p);
    }
  }

  // ---------------------------------------------------------------- copyuvm()

  datatype CopyResult = Copied(d: nat) | NoRoom | NotMapped

  /** Page v of the copy: another frame with the same flags and the same content. */
  ghost predicate SamePage(mem0: Memory, src: nat, mem: Memory, d: nat, v: nat)
    requires v < NVPAGES
  {
    var w0, w := At(mem0, src, v), At(mem, d, v);
    && Present(w0) && Present(w) && Flags(w) == Flags(w0) && Addr(w) != Addr(w0)
    && Addr(w0) in mem0 && Addr(w) in mem && mem[Addr(w)] == mem0[Addr(w0)]
  }

  /** copyuvm() has copied the pages before a; the rest of the copy is the kernel's. */
  ghost predicate Copying(mem0: Memory, src: nat, mem: Memory, d: nat, rs: seq<Range>, a: nat)
    requires forall x :: 0 <= x < |rs| ==> RangeOk(rs[x])
  {
    && (forall v {:trigger At(mem, d, v)} :: 0 <= v < a && v < NVPAGES ==> SamePage(mem0, src, mem, d, v))
    && (forall v {:trigger At(mem, d, v)} :: a <= v < NVPAGES ==> At(mem, d, v) == Expect(rs, v))
  }

  /** What happens in another directory does not show in this one. */
  lemma OtherKept(mem0: Memory, role0: Roles, mem: Memory, role: Roles, d: nat, src: nat)
    requires Sound(mem0, role0) && src in role0 && role0[src] == Dir && src != d
    requires Within(mem0, role0, mem, role, d, None)
    ensures role[src] == Dir && KeptBut(mem0, mem, src, 0, 0)
  {
    assert PageWithin(role0[src], mem0[src], role[src], mem[src], src, d, None);
    forall v | 0 <= v < NVPAGES ensures Kept(mem0, mem, src, v) {
      OtherPage(mem0, role0, mem, role, d, src, v);
    }
  }

  lemma OtherPage(mem0: Memory, role0: Roles, mem: Memory, role: Roles, d: nat, src: nat, v: nat)
    requires Sound(mem0, role0) && src in role0 && role0[src] == Dir && src != d
    requires Within(mem0, role0, mem, role, d, None) && v < NVPAGES
    ensures Kept(mem0, mem, src, v)
  {
    assert PageWithin(role0[src], mem0[src], role[src], mem[src], src, d, None);
    assert PdeOk(mem0, role0, src, v / NENTRIES);
    var t := Addr(mem0[src][v / NENTRIES]);
    if Present(mem0[src][v / NENTRIES]) {
      assert PageWithin(role0[t], mem0[t], role[t], mem[t], t, d, None);
    }
    if v < KERNPAGE && Present(At(mem0, src, v)) {
      UserAt(mem0, role0, src, v);
      var p := Addr(At(mem0, src, v));
      assert PageWithin(role0[p], mem0[p], role[p], mem[p], p, d, None);
    }
  }

  /** The entry for page v as copyuvm() reads it. */
  method ReadEntry(k: Pages, src: nat, v: nat) returns (w: nat)
    requires IsDir(k, src) && v < NVPAGES
    modifies k
    ensures k.mem == old(k.mem) && k.role == old(k.role) && k.fl == old(k.fl) && k.freelist == old(k.freelist)
    ensures w == At(k.mem, src, v)
  {
    var t := Walkpgdir(k, src, v / NENTRIES, false);
    if t.None? {
      return 0;
    }
    assert TableOk(k.mem, k.role, t.value);
    w := if Present(k.mem[t.value][v % NENTRIES]) then k.mem[t.value][v % NENTRIES] else 0;
  }

  lemma KernelOnly(rs: seq<Range>, v: nat)
    requires (forall x :: 0 <= x < |rs| ==> RangeOk(rs[x])) && v < KERNPAGE
    ensures Expect(rs, v) == 0
  {
    NotIn(rs, v);
  }

  /** Before copyuvm(): src is a directory and d a free page. */
  ghost predicate Before(mem0: Memory, role0: Roles, src: nat, d: nat) {
    Sound(mem0, role0) && src in role0 && role0[src] == Dir && d in role0 && role0[d] == Free
  }

  /** What the loop of copyuvm() keeps. */
  ghost predicate CopyState(k: Pages, mem0: Memory, role0: Roles, src: nat, d: nat, rs: seq<Range>, a: nat)
    reads k
    requires forall x :: 0 <= x < |rs| ==> RangeOk(rs[x])
  {
    IsDir(k, d) && Within(mem0, role0, k.mem, k.role, d, None) && Copying(mem0, src, k.mem, d, rs, a)
  }

  /** One turn of the loop of copyuvm(): page a. */
  method CopyTurn(k: Pages, src: nat, d: nat, a: nat, ghost rs: seq<Range>, ghost mem0: Memory,
                  ghost role0: Roles) returns (r: MapResult)
    requires (forall x :: 0 <= x < |rs| ==> RangeOk(rs[x])) && CopyState(k, mem0, role0, src, d, rs, a) && a < KERNPAGE
    requires Before(mem0, role0, src, d)
    modifies k
    ensures k.Valid()
    ensures r == Remap <==> !Present(At(mem0, src, a))
    ensures r == Mapped ==> CopyState(k, mem0, role0, src, d, rs, a + 1) && Pool(k, d) + 1 == old(Pool(k, d))
    ensures r == NoMemory ==> old(Pool(k, d)) <= 1 + NENTRIES
    ensures r == NoMemory ==> IsDir(k, d) && Within(mem0, role0, k.mem, k.role, d, None)
  {
    ghost var mem1, role1 := k.mem, k.role;
    OtherKept(mem0, role0, mem1, role1, d, src);
    var w := ReadEntry(k, src, a);
    assert Kept(mem0, mem1, src, a);
    if !Present(w) {
      return Remap;
    }
    UserAt(mem0, role0, src, a);
    KernelOnly(rs, a);
    assert At(mem1, d, a) == 0;
    r := CopyPage(k, d, a, k.mem[Addr(w)], Flags(w), mem0, role0);
    if r == Mapped {
      WasFree(mem0, role0, mem1, role1, d, Addr(At(k.mem, d, a)));
      CopyEntry(mem0, role0, src, k.mem, d, a, w);
      CopyAdvance(mem0, src, mem1, k.mem, d, rs, a);
    }
  }

  /** A page that is free now was free before the directory was made. */
  lemma WasFree(mem0: Memory, role0: Roles, mem1: Memory, role1: Roles, d: nat, p: nat)
    requires Sound(mem0, role0) && d in role0 && role0[d] == Free && Within(mem0, role0, mem1, role1, d, None)
    requires p in role1 && role1[p] == Free
    ensures p in role0 && role0[p] == Free
  {
    assert PageWithin(role0[p], mem0[p], role1[p], mem1[p], p, d, None);
    NotOwned(mem0, role0, d, p);
  }

  lemma CopyAdvance(mem0: Memory, src: nat, mem1: Memory, mem: Memory, d: nat, rs: seq<Range>, a: nat)
    requires (forall x :: 0 <= x < |rs| ==> RangeOk(rs[x])) && a < KERNPAGE && Copying(mem0, src, mem1, d, rs, a)
    requires KeptBut(mem1, mem, d, a, a + 1) && SamePage(mem0, src, mem, d, a)
    ensures Copying(mem0, src, mem, d, rs, a + 1)
  {
    forall v | 0 <= v < a + 1 ensures SamePage(mem0, src, mem, d, v) {
      if v < a {
        assert At(mem1, d, v) == At(mem, d, v);
        assert SamePage(mem0, src, mem1, d, v) && Kept(mem1, mem, d, v);
      }
    }
    forall v | a + 1 <= v < NVPAGES ensures At(mem, d, v) == Expect(rs, v) {
      assert Kept(mem1, mem, d, v) && At(mem1, d, v) == Expect(rs, v);
    }
  }

  lemma CopyEntry(mem0: Memory, role0: Roles, src: nat, mem: Memory, d: nat, a: nat, w0: nat)
    requires a < KERNPAGE && Sound(mem0, role0) && src in role0 && role0[src] == Dir && w0 == At(mem0, src, a)
    requires Present(w0)
    requires Present(At(mem, d, a)) && Flags(At(mem, d, a)) == Flags(w0) && Addr(w0) in mem0
    requires Addr(At(mem, d, a)) in role0 && role0[Addr(At(mem, d, a))] == Free && Addr(At(mem, d, a)) in mem
    requires mem[Addr(At(mem, d, a))] == mem0[Addr(w0)]
    ensures SamePage(mem0, src, mem, d, a)
  {
    UserAt(mem0, role0, src, a);
  }

  /** kalloc(), memmove() and mappages() for one page of the copy. */
  method CopyPage(k: Pages, d: nat, a: nat, content: Page, flags: nat, ghost mem0: Memory,
                  ghost role0: Roles) returns (r: MapResult)
    requires IsDir(k, d) && a < KERNPAGE && At(k.mem, d, a) == 0 && flags < PGSIZE && Present(flags)
    requires Within(mem0, role0, k.mem, k.role, d, None)
    modifies k
    ensures IsDir(k, d) && Within(mem0, role0, k.mem, k.role, d, None) && r != Remap
    ensures r == Mapped ==> Pool(k, d) + 1 == old(Pool(k, d))
    ensures r == NoMemory ==> old(Pool(k, d)) <= 1 + NENTRIES
    ensures r == Mapped ==>
      KeptBut(old(k.mem), k.mem, d, a, a + 1) && Present(At(k.mem, d, a)) && Flags(At(k.mem, d, a)) == flags
    ensures r == Mapped ==>
      var p := Addr(At(k.mem, d, a)); p in old(k.role) && old(k.role)[p] == Free && p in k.mem && k.mem[p] == content
  {
    ghost var mem1, role1 := k.mem, k.role;
    TablesBounded(k.mem[d]);
    var hand := TakePage(k, d, content);
    if hand.None? {
      return NoMemory;
    }
    ghost var mem2, role2 := k.mem, k.role;
    assert Kept(mem1, mem2, d, a);
    r := MapPage(k, d, a, hand.value, flags);
    ghost var mem3, role3 := k.mem, k.role;
    if r == Mapped {
      CopyPut(mem0, role0, mem1, role1, mem2, role2, mem3, role3, d, a, hand.value);
    } else {
      StillInHand(mem0, role0, mem1, role1, mem2, role2, mem3, role3, d, hand.value);
      Discard(k, d, hand.value, mem0, role0);
    }
  }

  /** kfree(mem) */
  method Discard(k: Pages, d: nat, p: nat, ghost mem0: Memory, ghost role0: Roles)
    requires IsDir(k, d) && p in k.role && k.role[p] == Other && Within(mem0, role0, k.mem, k.role, d, Some(p))
    modifies k
    ensures IsDir(k, d) && Within(mem0, role0, k.mem, k.role, d, None)
  {
    ghost var mem3, role3 := k.mem, k.role;
    k.Release(p);
    WithinPut(mem0, role0, mem3, role3, k.mem, k.role, d, p);
  }

  lemma StillInHand(mem0: Memory, role0: Roles, mem1: Memory, role1: Roles, mem2: Memory, role2: Roles, mem: Memory,
                    role: Roles, d: nat, p: nat)
    requires Within(mem0, role0, mem1, role1, d, None) && Within(mem1, role1, mem2, role2, d, Some(p))
    requires Within(mem2, role2, mem, role, d, None)
    requires p in role1
    ensures Within(mem0, role0, mem, role, d, Some(p)) && role[p] == Other
  {
    WithinTrans(mem1, role1, mem2, role2, mem, role, d, Some(p));
    WithinHand(mem0, role0, mem1, role1, mem, role, d, p);
  }

  lemma CopyPut(mem0: Memory, role0: Roles, mem1: Memory, role1: Roles, mem2: Memory, role2: Roles, mem: Memory,
                role: Roles, d: nat, a: nat, p: nat)
    requires Within(mem0, role0, mem1, role1, d, None) && Within(mem1, role1, mem2, role2, d, Some(p)) && p in role2
    requires KeptBut(mem1, mem2, d, 0, 0) && a < KERNPAGE && Placed(mem2, role2, mem, role, d, a, p)
    ensures Within(mem0, role0, mem, role, d, None) && KeptBut(mem1, mem, d, a, a + 1) && mem[p] == mem2[p]
  {
    WithinPut(mem1, role1, mem2, role2, mem, role, d, p);
    WithinTrans(mem0, role0, mem1, role1, mem, role, d, None);
    KeptWiden(mem1, mem2, d, 0, 0, a, a + 1);
    KeptTrans(mem1, mem2, mem, d, a, a + 1);
  }

  /** copyuvm(): a directory with its own frames, in which each page below sz has the
      flags and the content of the original, no other user page, and the kernel's
      mappings.  Where memory runs out every page it took is free again; a page below sz
      that is not mapped stops the kernel.  There is enough memory with a free page for
      each page, for each table that a directory can have, and for the directory. */
  method Copyuvm(k: Pages, src: nat, sz: nat, data: nat) returns (r: CopyResult)
    requires IsDir(k, src) && sz <= KERNBASE && KERNPAGE + EXTMEM < data < KERNPAGE + PHYSTOP
    modifies k
    ensures k.Valid()
    ensures r == NotMapped ==> exists v :: 0 <= v < Up(sz) && v < KERNPAGE && !Present(At(old(k.mem), src, v))
    ensures r == NoRoom ==> k.role == old(k.role) && |old(k.fl)| <= 1 + NENTRIES + Up(sz)
    ensures r.Copied? ==> r.d in old(k.role) && old(k.role)[r.d] == Free && IsDir(k, r.d) && IsDir(k, src)
    ensures r.Copied? ==>
      Within(old(k.mem), old(k.role), k.mem, k.role, r.d, None) && KeptBut(old(k.mem), k.mem, src, 0, 0)
    ensures r.Copied? ==> forall v :: 0 <= v < Up(sz) && v < KERNPAGE ==> SamePage(old(k.mem), src, k.mem, r.d, v)
    ensures r.Copied? ==> forall v :: Up(sz) <= v < KERNPAGE ==> At(k.mem, r.d, v) == 0
    ensures forall x :: 0 <= x < 4 ==> RangeOk(Kmap(data)[x])
    ensures r.Copied? ==> forall v :: KERNPAGE <= v < NVPAGES ==> At(k.mem, r.d, v) == Expect(Kmap(data), v)
    ensures r.Copied? ==> forall v :: KERNPAGE <= v < NVPAGES ==> KernelEntry(data, v, At(k.mem, r.d, v))
  {
    ghost var mem0, role0 := k.mem, k.role;
    var made := Setupkvm(k, data);
    if made.None? {
      return NoRoom;
    }
    var d := made.value;
    var m := CopyLoop(k, src, d, Up(sz), Kmap(data), mem0, role0);
    if m == Remap {
      return NotMapped;
    }
    if m == NoMemory {
      FreeNew(k, d, mem0, role0);
      return NoRoom;
    }
    CopyDone(mem0, role0, src, k.mem, k.role, d, Kmap(data), Up(sz));
    KmapShown(k.mem, d, data, KERNPAGE);
    return Copied(d);
  }

  method CopyLoop(k: Pages, src: nat, d: nat, n: nat, ghost rs: seq<Range>, ghost mem0: Memory,
                  ghost role0: Roles) returns (r: MapResult)
    requires (forall x :: 0 <= x < |rs| ==> RangeOk(rs[x])) && CopyState(k, mem0, role0, src, d, rs, 0) && n <= KERNPAGE
    requires Before(mem0, role0, src, d)
    modifies k
    ensures k.Valid()
    ensures r == Remap ==> exists v :: 0 <= v < n && !Present(At(mem0, src, v))
    ensures r == Mapped ==> CopyState(k, mem0, role0, src, d, rs, n)
    ensures r == NoMemory ==> old(Pool(k, d)) <= NENTRIES + n
    ensures r == NoMemory ==> IsDir(k, d) && Within(mem0, role0, k.mem, k.role, d, None)
  {
    var a := 0;
    while a < n
      invariant 0 <= a <= n && CopyState(k, mem0, role0, src, d, rs, a) && Pool(k, d) + a == old(Pool(k, d))
    {
      r := CopyTurn(k, src, d, a, rs, mem0, role0);
      if r != Mapped {
        return;
      }
      a := a + 1;
    }
    return Mapped;
  }

  lemma CopyDone(mem0: Memory, role0: Roles, src: nat, mem: Memory, role: Roles, d: nat, rs: seq<Range>, a: nat)
    requires (forall x :: 0 <= x < |rs| ==> RangeOk(rs[x])) && Copying(mem0, src, mem, d, rs, a)
    requires Sound(mem0, role0) && src in role0 && role0[src] == Dir && src != d
    requires Within(mem0, role0, mem, role, d, None)
    ensures role[src] == Dir && KeptBut(mem0, mem, src, 0, 0)
    ensures forall v :: 0 <= v < a && v < KERNPAGE ==> SamePage(mem0, src, mem, d, v)
    ensures forall v :: a <= v < KERNPAGE ==> At(mem, d, v) == 0
    ensures a <= KERNPAGE ==> forall v :: KERNPAGE <= v < NVPAGES ==> At(mem, d, v) == Expect(rs, v)
  {
    OtherKept(mem0, role0, mem, role, d, src);
    forall v | 0 <= v < a && v < KERNPAGE ensures SamePage(mem0, src, mem, d, v) {
      var _ := At(mem, d, v);
    }
    forall v | a <= v < KERNPAGE ensures At(mem, d, v) == 0 {
      KernelOnly(rs, v);
    }
  }
}
