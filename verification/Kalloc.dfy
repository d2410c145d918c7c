/** kalloc.c: the list of free pages, linked through the pages themselves. */
module Kalloc {
  import opened Options
  import opened PageTables

  const KERNBASE: nat := 0x8000_0000

  /** P2V, and the page at a kernel address. */
  function KernelAddr(p: nat): nat {
    KERNBASE + p * PGSIZE
  }

  function PageAt(a: nat): nat {
    if a < KERNBASE then 0 else (a - KERNBASE) / PGSIZE
  }

  function Ptr(fl: seq<nat>, k: nat): nat {
    if k < |fl| then KernelAddr(fl[k]) else 0
  }

  predicate NextOk(mem: Memory, fl: seq<nat>, k: nat)
    requires k < |fl|
  {
    fl[k] in mem && mem[fl[k]][0] == Ptr(fl, k + 1)
  }

  /** The list visits every free page once, and no other. */
  ghost predicate FreeOk(mem: Memory, role: Roles, fl: seq<nat>, head: nat) {
    && mem.Keys == role.Keys && head == Ptr(fl, 0)
    && (forall k, l :: 0 <= k < l < |fl| ==> fl[k] != fl[l])
    && (forall k {:trigger NextOk(mem, fl, k)} :: 0 <= k < |fl| ==> NextOk(mem, fl, k))
    && (forall p :: p in role ==> (role[p] == Free <==> p in fl))
  }

  lemma PopOk(mem: Memory, role: Roles, fl: seq<nat>, head: nat)
    requires FreeOk(mem, role, fl, head) && fl != []
    ensures fl[0] in mem && FreeOk(mem, role[fl[0] := Other], fl[1..], mem[fl[0]][0])
  {
    assert NextOk(mem, fl, 0);
    forall k | 0 <= k < |fl[1..]| ensures NextOk(mem, fl[1..], k) {
      assert NextOk(mem, fl, k + 1);
    }
    forall p | p in role ensures role[fl[0] := Other][p] == Free <==> p in fl[1..] {
      assert p in fl <==> p == fl[0] || p in fl[1..];
    }
  }

  lemma PushOk(mem: Memory, role: Roles, fl: seq<nat>, head: nat, p: nat, mem': Memory, g: seq<nat>)
    requires FreeOk(mem, role, fl, head) && p in role && role[p] != Free && g == [p] + fl
    requires p in mem' && mem' == mem[p := mem'[p]] && mem'[p][0] == head
    ensures FreeOk(mem', role[p := Free], g, KernelAddr(p))
  {
    assert p !in fl;
    forall k | 0 <= k < |g| ensures NextOk(mem', g, k) {
      if 0 < k {
        assert NextOk(mem, fl, k - 1) && fl[k - 1] in fl;
      }
    }
  }

  /** Pages that are not free may change, but not become free. */
  lemma UseOk(mem: Memory, role: Roles, fl: seq<nat>, head: nat, mem': Memory, role': Roles)
    requires FreeOk(mem, role, fl, head) && mem'.Keys == mem.Keys && role'.Keys == role.Keys
    requires forall p :: p in role ==>
      (role'[p] == Free <==> role[p] == Free) && (role[p] == Free ==> mem'[p] == mem[p])
    ensures FreeOk(mem', role', fl, head)
  {
    forall k | 0 <= k < |fl| ensures NextOk(mem', fl, k) {
      assert NextOk(mem, fl, k) && fl[k] in fl;
    }
  }

  class Pages {
    var mem: Memory
    var freelist: nat
    ghost var fl: seq<nat>
    ghost var role: Roles

    ghost predicate Valid()
      reads this
    {
      Sound(mem, role) && FreeOk(mem, role, fl, freelist)
    }

    constructor (mem: Memory)
      requires 0 !in mem
      ensures Valid() && fl == [] && freelist == 0 && this.mem == mem && forall p :: p in role ==> role[p] == Other
    {
      this.mem := mem;
      freelist := 0;
      fl := [];
      role := map p | p in mem :: Other;
    }

    /** kfree(): the page is filled with junk and goes to the front of the list. */
    method Kfree(p: nat)
      requires FreeOk(mem, role, fl, freelist) && p in role && role[p] != Free
      modifies this
      ensures FreeOk(mem, role, fl, freelist) && fl == [p] + old(fl) && role == old(role)[p := Free]
      ensures p in mem && mem == old(mem)[p := mem[p]] && mem[p] == Filled(0x01010101)[0 := old(freelist)]
    {
      ghost var mem0 := mem;
      mem := mem[p := Filled(0x01010101)];
      mem := mem[p := mem[p][0 := freelist]];
      PushOk(mem0, role, fl, freelist, p, mem, [p] + fl);
      freelist := KernelAddr(p);
      fl := [p] + fl;
      role := role[p := Free];
    }

    /** kfree() of a page that is in no directory. */
    method Release(p: nat)
      requires Valid() && p in role && (role[p].Other? || role[p].Dying?)
      modifies this
      ensures Valid() && fl == [p] + old(fl) && role == old(role)[p := Free] && p in mem && mem == old(mem)[p := mem[p]]
    {
      ghost var mem0, role0 := mem, role;
      Kfree(p);
      PlainChange(mem0, role0, p, mem[p], Free);
    }

    /** kalloc(): the first page of the list, if any; it keeps its content. */
    method Kalloc() returns (r: Option<nat>)
      requires Valid()
      modifies this`freelist, this`fl, this`role
      ensures Valid()
      ensures r.None? <==> old(fl) == []
      ensures r.None? ==> fl == [] && role == old(role) && freelist == old(freelist)
      ensures r.Some? ==>
        fl == old(fl)[1..] && r.value == old(fl)[0] &&
        r.value in role && old(role)[r.value] == Free && role == old(role)[r.value := Other]
    {
      if freelist == 0 {
        return None;
      }
      var p := PageAt(freelist);
      assert p == fl[0];
      PopOk(mem, role, fl, freelist);
      PlainChange(mem, role, p, mem[p], Other);
      assert mem[p := mem[p]] == mem;
      freelist := mem[p][0];
      fl := fl[1..];
      role := role[p := Other];
      return Some(p);
    }

    /** kcount(): the number of free pages. */
    method Kcount() returns (count: nat)
      requires Valid()
      ensures count == |fl|
    {
      count := 0;
      var r := freelist;
      while r != 0
        invariant 0 <= count <= |fl| && r == Ptr(fl, count)
        decreases |fl| - count
      {
        assert NextOk(mem, fl, count);
        count := count + 1;
        r := mem[PageAt(r)][0];
      }
    }

    /** freerange(): n pages from p on, which the kernel had kept, become free. */
    method Freerange(p: nat, n: nat)
      requires Valid() && forall k :: p <= k < p + n ==> k in role && role[k] == Other
      modifies this
      ensures Valid() && |fl| == old(|fl|) + n
      ensures role.Keys == old(role).Keys && forall k :: k in role ==>
        role[k] == if p <= k < p + n then Free else old(role)[k]
    {
      var k := p;
      while k < p + n
        invariant p <= k <= p + n && Valid() && |fl| == old(|fl|) + k - p
        invariant role.Keys == old(role).Keys && forall x :: x in role ==>
          role[x] == if p <= x < k then Free else old(role)[x]
      {
        Release(k);
        k := k + 1;
      }
    }
  }
}
