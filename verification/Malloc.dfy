/** umalloc.c: free(), morecore() and malloc() on the circle of free blocks. */
module Malloc {
  import opened Options
  import opened Umalloc
  import opened ProcessSize

  /** nunits for a request of nbytes bytes, in 32 bits. */
  function Units(nbytes: nat): nat {
    (nbytes + HEADER - 1) % UINT / HEADER + 1
  }

  /** The block has room for the request behind its header if and only if the sum
      in malloc() does not overflow. */
  lemma UnitsSuffice(nbytes: nat)
    requires nbytes < UINT
    ensures 0 < Units(nbytes)
    ensures nbytes <= (Units(nbytes) - 1) * HEADER <==> nbytes <= UINT - HEADER
  {
  }

  /** The last 7 sizes give a block with no room at all. */
  lemma UnitsOverflow(nbytes: nat)
    requires UINT - HEADER < nbytes < UINT
    ensures Units(nbytes) == 1
  {
  }

  /** The units that morecore() asks for. */
  function Asked(nu: nat): nat {
    if nu < 4096 then 4096 else nu
  }

  /** nu * sizeof(Header), as the int that sbrk() gets. */
  function Argument(nu: nat): int {
    Int(Asked(nu) * HEADER)
  }

  /** The largest request that morecore() can serve. */
  const BIGGEST: nat := UINT / 2 - 2 * HEADER

  /** sbrk() is asked for memory, and for all of the block, if and only if the
      request is not larger than BIGGEST or overflows at once. */
  lemma ArgumentFits(nbytes: nat)
    requires nbytes < UINT
    ensures 0 < Argument(Units(nbytes)) <==> nbytes <= BIGGEST || UINT - HEADER < nbytes
    ensures 0 < Argument(Units(nbytes)) ==> Argument(Units(nbytes)) == Asked(Units(nbytes)) * HEADER
    ensures nbytes <= (Units(nbytes) - 1) * HEADER && 0 < Argument(Units(nbytes)) <==> nbytes <= BIGGEST
  {
  }

  /** Two requests that are too large: the first asks for nothing and gets it, the
      second gives 8 bytes back. */
  lemma TooLarge(p: Process)
    requires 8 < p.sz < KERNBASE && !p.isthread
    ensures Units(UINT - 8) == 0x2000_0000 && Argument(Units(UINT - 8)) == 0
    ensures Sbrk(p, Argument(Units(UINT - 8))) == Moved(Some(p.sz), p.sz, false)
    ensures Argument(Units(UINT - 16)) == -8
    ensures Sbrk(p, Argument(Units(UINT - 16))) == Moved(Some(p.sz), p.sz - 8, false)
  {
  }

  /** What morecore() does: sbrk() fails, or it fails and has unmapped the process, or
      free units come with freep, or sbrk() returns without any memory.  In the last
      case the header of a block of the size asked for goes to the old break, outside
      of the process. */
  datatype Core = NoCore | LostCore | More(p: nat) | WildCore

  datatype Result = NoMemory | Lost | Block(p: nat) | Wild

  class Heap {
    const base: nat
    var mem: map<nat, Header>
    var freep: nat
    ghost var f: seq<nat>
    ghost var live: set<nat>
    ghost var own: map<nat, nat>

    /** The circle, with freep on it, and every unit in one block.  Before the first
        malloc() there is none. */
    ghost predicate Valid()
      reads this
    {
      && 0 < base && base in mem
      && (freep == 0 ==> f == [base] && live == {} && own == map[])
      && (freep != 0 ==> Ready())
    }

    ghost predicate Ready()
      reads this
    {
      0 < base && Ring(mem, base, f) && Owned(mem, base, f, live, own) && freep in f && freep != 0
    }

    constructor (base: nat)
      requires 0 < base
      ensures Valid() && freep == 0 && live == {} && this.base == base
    {
      this.base := base;
      mem := map[base := Header(0, 0)];
      freep := 0;
      f, live, own := [base], {}, map[];
    }

    /** The loop of free(): the place of bp in the circle. */
    method FindPlace(bp: nat) returns (p: nat, ghost k: nat)
      requires Ready() && base < bp && bp !in f
      ensures exists i: nat :: Place(f, i, bp) && p == f[i]
      ensures Place(f, k, bp) && p == f[k]
    {
      ghost var t, j := PlaceOf(f, bp), IndexOf(f, freep);
      p := freep;
      while !(p < bp < mem[p].ptr)
        invariant 0 <= j < |f| && p == f[j]
        decreases Distance(j, t, |f|)
      {
        AtPlace(mem, base, f, j, bp, t);
        if p >= mem[p].ptr && (bp > p || bp < mem[p].ptr) {
          break;
        }
        p := mem[p].ptr;
        j := if j + 1 < |f| then j + 1 else 0;
      }
      AtPlace(mem, base, f, j, bp, t);
      k := j;
    }

    /** free() after its loop: the two joins, and freep = p. */
    method Join(bp: nat, p: nat)
      requires p in mem && bp in mem && mem[p].ptr in mem
      modifies this`mem, this`freep
      ensures freep == p && mem == JoinPrev(JoinNext(old(mem), p, bp), p, bp)
    {
      var next := mem[p].ptr;
      if bp + mem[bp].size == next {
        mem := mem[bp := Header(mem[next].ptr, mem[bp].size + mem[next].size)];
      } else {
        mem := mem[bp := mem[bp].(ptr := next)];
      }
      if p + mem[p].size == bp {
        mem := mem[p := Header(mem[bp].ptr, mem[p].size + mem[bp].size)];
      } else {
        mem := mem[p := mem[p].(ptr := bp)];
      }
      freep := p;
    }

    method Insert(bp: nat, p: nat, ghost k: nat)
      requires Valid() && bp in live && Place(f, k, bp) && p == f[k] && freep != 0
      modifies this
      ensures Ready() && live == old(live) - {bp} && own.Keys == old(own).Keys && mem.Keys == old(mem).Keys
      ensures Untouched(old(mem), old(own), old(live), mem, own, live)
      ensures Roomy(mem, f, old(mem)[bp].size)
    {
      ghost var mem0, i, j, a, n :=
        mem, SliceStart(mem, f, k, bp), SliceEnd(mem, f, k, bp), Start(mem, f, k, bp), Length(mem, f, k, bp);
      assert mem[f[k]].ptr == Succ(f, k) && base <= f[k];
      Join(bp, p);
      Inserted(mem0, base, f, live, own, k, bp, i, j, a, n, mem);
      f, live, own := f[..i] + [a] + f[j..], live - {bp}, Assign(own, a, n);
    }

    /** free(): bp is no longer live; its units are in a free block, joined with
        free neighbours.  No unit of any live block changes. */
    method Free(bp: nat)
      requires Valid() && bp in live
      modifies this
      ensures Ready() && live == old(live) - {bp} && own.Keys == old(own).Keys && mem.Keys == old(mem).Keys
      ensures Untouched(old(mem), old(own), old(live), mem, own, live)
      ensures Roomy(mem, f, old(mem)[bp].size)
    {
      assert IsBlock(f, live, bp) && bp in own && own[bp] == bp;
      var p; ghost var k;
      p, k := FindPlace(bp);
      Insert(bp, p, k);
    }

    /** morecore(): at least nu units from sbrk() go to the free blocks; one of them
        has the nu units then. */
    method Morecore(nu0: nat, proc: Process) returns (c: Core, sz: nat)
      requires Ready() && 0 < nu0 && Fits(own, base, proc.sz)
      modifies this
      ensures sz == Sbrk(proc, Argument(nu0)).sz
      ensures c.NoCore? <==> Sbrk(proc, Argument(nu0)).addr.None? && !Sbrk(proc, Argument(nu0)).wiped
      ensures c.LostCore? <==> Sbrk(proc, Argument(nu0)).wiped
      ensures c.WildCore? <==> Sbrk(proc, Argument(nu0)).addr.Some? && Argument(nu0) <= 0
      ensures !c.More? ==> mem == old(mem) && freep == old(freep) && f == old(f) && live == old(live) && own == old(own)
      ensures c.More? ==> Ready() && c.p == freep && live == old(live) && Roomy(mem, f, nu0)
      ensures c.More? ==> Gains(old(own), own, proc.sz / HEADER, Asked(nu0))
      ensures c.More? ==> Untouched(old(mem), old(own), old(live), mem, own, live)
    {
      var nu := Asked(nu0);
      var moved := Sbrk(proc, Int(nu * HEADER));
      sz := moved.sz;
      if moved.addr.None? {
        return if moved.wiped then LostCore else NoCore, sz;
      }
      if Int(nu * HEADER) <= 0 {
        return WildCore, sz;
      }
      assert moved.addr.value == proc.sz;
      Donate(moved.addr.value / HEADER, nu);
      RoomyLess(mem, f, nu, nu0);
      return More(freep), sz;
    }

    /** The new units, given to free() as one block. */
    method Donate(hp: nat, nu: nat)
      requires Ready() && 0 < nu && New(own, base, hp, nu)
      modifies this
      ensures Ready() && live == old(live) && Roomy(mem, f, nu)
      ensures Gains(old(own), own, hp, nu)
      ensures Untouched(old(mem), old(own), old(live), mem, own, live)
    {
      ghost var mem0, own0, live0 := mem, own, live;
      Extend(hp, nu);
      ghost var mem1, own1, live1 := mem, own, live;
      Free(hp);
      DonateWorks(mem0, own0, live0, mem1, own1, live1, mem, own, live, hp, nu);
    }

    /** The new units, with the header that makes them one block. */
    method Extend(hp: nat, nu: nat)
      requires Ready() && 0 < nu && New(own, base, hp, nu)
      modifies this
      ensures Ready() && freep == old(freep) && live == old(live) + {hp} && hp !in old(live) && hp in mem
      ensures mem[hp].size == nu
      ensures Gains(old(own), own, hp, nu)
      ensures Untouched(old(mem), old(own), old(live), mem, own, live)
    {
      ghost var mem0, own0, live0 := mem, own, live;
      mem := mem + Fill(hp, nu, Header(0, 0))[hp := Header(0, nu)];
      own := own + Fill(hp, nu, hp);
      live := live + {hp};
      GrowWorks(mem0, base, f, live0, own0, hp, nu, mem, own);
    }

    /** malloc() has found block p, behind prevp: it takes the whole block or its
        tail. */
    method Carve(prevp: nat, p: nat, nunits: nat, ghost i: nat) returns (r: nat)
      requires Ready() && 0 < i < |f| && p == f[i] && prevp == f[i - 1] && 0 < nunits <= mem[p].size
      modifies this
      ensures Ready() && freep == prevp && live == old(live) + {r} && r !in old(live) && r in mem
      ensures mem[r].size == nunits
      ensures own.Keys == old(own).Keys && Untouched(old(mem), old(own), old(live), mem, own, live)
    {
      Above(mem, base, f, i - 1);
      if mem[p].size == nunits {
        r := Whole(prevp, p, i);
      } else {
        r := Tail(prevp, p, nunits, i);
      }
    }

    method Whole(prevp: nat, p: nat, ghost i: nat) returns (r: nat)
      requires Ready() && 0 < i < |f| && p == f[i] && prevp == f[i - 1] && prevp != 0
      modifies this
      ensures r == p && r !in old(live) && live == old(live) + {r} && r in mem && mem[r].size == old(mem)[p].size
      ensures Ready() && freep == prevp
      ensures own == old(own) && Untouched(old(mem), old(own), old(live), mem, own, live)
    {
      ghost var g, mem0, live0 := f[..i] + f[i + 1..], mem, live;
      mem := mem[prevp := mem[prevp].(ptr := mem[p].ptr)];
      WholeWorks(mem0, base, f, live0, own, i, mem, g);
      f, live := g, live + {p};
      freep := prevp;
      return p;
    }

    method Tail(prevp: nat, p: nat, nunits: nat, ghost i: nat) returns (r: nat)
      requires Ready() && 0 < i < |f| && p == f[i] && 0 < nunits < mem[p].size && prevp == f[i - 1] && prevp != 0
      modifies this
      ensures r !in old(live) && live == old(live) + {r} && r in mem && mem[r].size == nunits
      ensures Ready() && freep == prevp
      ensures own.Keys == old(own).Keys && Untouched(old(mem), old(own), old(live), mem, own, live)
    {
      ghost var mem0, own0, live0 := mem, own, live;
      TailInHeap(mem, base, f, live, own, i, nunits);
      mem := mem[p := mem[p].(size := mem[p].size - nunits)];
      r := p + mem[p].size;
      mem := mem[r := mem[r].(size := nunits)];
      own := Assign(own, r, nunits);
      live := live + {r};
      freep := prevp;
      TailWorks(mem0, base, f, live0, own0, i, nunits, r, mem);
    }

    /** The first call of malloc() makes base a circle of its own. */
    method Start0()
      requires Valid() && freep == 0
      modifies this
      ensures Ready() && live == old(live) && own == old(own) && forall n :: 0 < n ==> !Roomy(mem, f, n)
    {
      mem := mem[base := Header(base, 0)];
      freep := base;
      assert Succ(f, 0) == base;
      assert forall a: nat :: !IsBlock(f, live, a);
    }

    /** malloc() stands at a block that is large enough. */
    method Found(prevp: nat, p: nat, nunits: nat, ghost proc: Process, ghost sz: nat, ghost s0: nat, ghost c: nat,
                 ghost asked: bool,
                 ghost mem0: map<nat, Header>, ghost own0: map<nat, nat>, ghost live0: set<nat>, ghost f0: seq<nat>)
      returns (b: nat)
      requires Ready() && Scanning(mem, f, freep, s0, c, prevp, p, nunits) && 0 < nunits <= mem[p].size
      requires Since(mem0, own0, live0, f0, mem, own, live, f, asked, proc, sz, nunits)
      modifies this
      ensures Ready() && Outcome(mem0, own0, live0, f0, mem, own, live, f, Block(b), proc, sz, nunits)
    {
      ScanFound(mem, base, f, freep, s0, c, prevp, p, nunits);
      ghost var mem1, own1, live1, f1 := mem, own, live, f;
      b := Carve(prevp, p, nunits, Turn(s0, c, |f|));
      FoundOutcome(mem0, own0, live0, f0, mem1, own1, live1, f1, asked, mem, own, live, f, b, proc, sz, nunits);
    }

    /** malloc() is back at freep: morecore(). */
    method Renew(prevp: nat, p: nat, nunits: nat, proc: Process, ghost sz0: nat, ghost s0: nat, ghost c: nat,
                 ghost asked: bool,
                 ghost mem0: map<nat, Header>, ghost own0: map<nat, nat>, ghost live0: set<nat>, ghost f0: seq<nat>)
      returns (q: Core, sz: nat, ghost s1: nat)
      requires Ready() && Scanning(mem, f, freep, s0, c, prevp, p, nunits) && mem[p].size < nunits && p == freep
      requires Since(mem0, own0, live0, f0, mem, own, live, f, asked, proc, sz0, nunits) && Fits(own0, base, proc.sz)
      modifies this
      ensures !asked && Ready()
      ensures q.NoCore? ==> Outcome(mem0, own0, live0, f0, mem, own, live, f, NoMemory, proc, sz, nunits)
      ensures q.LostCore? ==> Outcome(mem0, own0, live0, f0, mem, own, live, f, Lost, proc, sz, nunits)
      ensures q.WildCore? ==> Outcome(mem0, own0, live0, f0, mem, own, live, f, Wild, proc, sz, nunits)
      ensures q.More? ==> Since(mem0, own0, live0, f0, mem, own, live, f, true, proc, sz, nunits)
      ensures q.More? ==> q.p == freep && q.p in mem && Scanning(mem, f, freep, s1, 0, q.p, mem[q.p].ptr, nunits)
    {
      ScannedAll(mem, f, freep, s0, c, prevp, p, nunits);
      q, sz := Morecore(nunits, proc);
      s1 := 0;
      if q.More? {
        s1 := IndexOf(f, freep);
        BeginScan(mem, base, f, freep, s1, nunits);
      }
    }

    /** malloc() looks at p, behind prevp: what holds in its loop. */
    ghost predicate Looking(prevp: nat, p: nat, nunits: nat, proc: Process, sz: nat, s0: nat, c: nat, asked: bool,
                            mem0: map<nat, Header>, own0: map<nat, nat>, live0: set<nat>, f0: seq<nat>)
      reads this
    {
      Ready() && Scanning(mem, f, freep, s0, c, prevp, p, nunits)
      && Since(mem0, own0, live0, f0, mem, own, live, f, asked, proc, sz, nunits)
    }

    /** A turn of the loop at a block that is too small: the block to look at next,
        or the result. */
    method LookOn(prevp: nat, p: nat, nunits: nat, proc: Process, sz0: nat, ghost s0: nat, ghost c: nat,
                  ghost asked: bool,
                  ghost mem0: map<nat, Header>, ghost own0: map<nat, nat>, ghost live0: set<nat>, ghost f0: seq<nat>)
      returns (r: Option<Result>, q: nat, sz: nat, ghost s1: nat, ghost c1: nat, ghost asked1: bool)
      requires Looking(prevp, p, nunits, proc, sz0, s0, c, asked, mem0, own0, live0, f0) && mem[p].size < nunits
      requires Fits(own0, base, proc.sz)
      modifies this
      ensures r.Some? ==> Ready() && Outcome(mem0, own0, live0, f0, mem, own, live, f, r.value, proc, sz, nunits)
      ensures r.None? ==> q in mem && Looking(q, mem[q].ptr, nunits, proc, sz, s1, c1, asked1, mem0, own0, live0, f0)
      ensures r.None? ==> (asked1 && !asked) || (asked1 == asked && f == old(f) && c < c1 < |f|)
    {
      r, q, sz, s1, c1, asked1 := None, p, sz0, s0, c + 1, asked;
      if p == freep {
        var core;
        core, sz, s1 := Renew(prevp, p, nunits, proc, sz0, s0, c, asked, mem0, own0, live0, f0);
        match core {
          case NoCore => r := Some(NoMemory);
          case LostCore => r := Some(Lost);
          case WildCore => r := Some(Wild);
          case More(p') => q, c1, asked1 := p', 0, true;
        }
      } else {
        ScanNext(mem, f, freep, s0, c, prevp, p, nunits);
      }
    }

    /** The loop of malloc(). */
    method Search(nunits: nat, proc: Process) returns (r: Result, sz: nat)
      requires Ready() && 0 < nunits && Fits(own, base, proc.sz)
      modifies this
      ensures Ready() && Outcome(old(mem), old(own), old(live), old(f), mem, own, live, f, r, proc, sz, nunits)
    {
      ghost var mem0, own0, live0, f0 := mem, own, live, f;
      ghost var s0, c, asked := IndexOf(f, freep), 0, false;
      sz := proc.sz;
      BeginScan(mem, base, f, freep, s0, nunits);
      var prevp := freep;
      var p := mem[prevp].ptr;
      while mem[p].size < nunits
        invariant p in mem && Looking(prevp, p, nunits, proc, sz, s0, c, asked, mem0, own0, live0, f0)
        decreases if asked then 0 else 1, |f| - c
      {
        var end;
        end, prevp, sz, s0, c, asked := LookOn(prevp, p, nunits, proc, sz, s0, c, asked, mem0, own0, live0, f0);
        if end.Some? {
          return end.value, sz;
        }
        p := mem[prevp].ptr;
      }
      var b := Found(prevp, p, nunits, proc, sz, s0, c, asked, mem0, own0, live0, f0);
      return Block(b), sz;
    }

    /** malloc(): a new live block that touches no unit of another, all of it memory
        of the process, with room for nbytes bytes if and only if nbytes is at most
        BIGGEST.  For a larger request that does not overflow at once no free block
        is large enough, and when sbrk() then returns, it has given no memory for the
        block, or taken some away; asked with -sz it fails and has taken all.  sbrk() is
        asked at most once, and only if no free block is large enough. */
    method Malloc(nbytes: nat, proc: Process) returns (r: Result, sz: nat)
      requires Valid() && nbytes < UINT && Fits(own, base, proc.sz)
      modifies this
      ensures Valid() && (r.Block? || r.NoMemory? ==> Untouched(old(mem), old(own), old(live), mem, own, live))
      ensures r.Block? ==>
        r.p !in old(live) && live == old(live) + {r.p} && r.p in mem && mem[r.p].size == Units(nbytes)
      ensures r.Block? ==> (nbytes <= (mem[r.p].size - 1) * HEADER <==> nbytes <= BIGGEST)
      ensures r.Wild? <==> Sbrk(proc, Argument(Units(nbytes))).addr.Some? && BIGGEST < nbytes <= UINT - HEADER
      ensures r.Wild? ==> sz == Sbrk(proc, Argument(Units(nbytes))).sz <= proc.sz
      ensures r.Lost? <==> Sbrk(proc, Argument(Units(nbytes))).wiped
      ensures r.NoMemory? <==>
        && !r.Lost? && Sbrk(proc, Argument(Units(nbytes))).addr.None?
        && !(old(freep) != 0 && Roomy(old(mem), old(f), Units(nbytes)))
      ensures r.NoMemory? || r.Lost? ==> sz == proc.sz
      ensures !r.Block? ==> live == old(live) && own == old(own)
      ensures r.Block? || r.NoMemory? ==> Fits(own, base, sz)
      ensures old(freep) != 0 && Roomy(old(mem), old(f), Units(nbytes)) ==>
        r.Block? && own.Keys == old(own).Keys && sz == proc.sz
      ensures r.Block? && own.Keys != old(own).Keys ==>
        sz == proc.sz + Asked(Units(nbytes)) * HEADER && Gains(old(own), own, proc.sz / HEADER, Asked(Units(nbytes)))
    {
      var nunits := Units(nbytes);
      UnitsSuffice(nbytes);
      if freep == 0 {
        Start0();
      }
      ghost var mem0, own0, f0 := mem, own, f;
      NotRoomy(mem, base, f, live, own, proc.sz, nunits);
      r, sz := Search(nunits, proc);
      OutcomeMeans(mem0, own0, old(live), f0, mem, own, live, f, base, r, proc, sz, nbytes);
    }
  }

  /** The units that the allocator has are in the memory of the process, below the
      break, which is at a unit. */
  ghost predicate Fits(own: map<nat, nat>, base: nat, sz: nat) {
    sz < KERNBASE && sz % HEADER == 0 && base < sz / HEADER && forall u :: u in own ==> u < sz / HEADER
  }

  ghost predicate Gains(own: map<nat, nat>, own': map<nat, nat>, hp: nat, nu: nat) {
    forall u :: u in own' <==> u in own || hp <= u < hp + nu
  }

  /** A process has no free block of 2^28 units. */
  lemma NotRoomy(mem: map<nat, Header>, base: nat, f: seq<nat>, live: set<nat>, own: map<nat, nat>, sz: nat, n: nat)
    requires Ring(mem, base, f) && Owned(mem, base, f, live, own) && Fits(own, base, sz)
    ensures KERNBASE <= n * HEADER ==> !Roomy(mem, f, n)
  {
    SpacedDistinct(mem, f);
    forall i | 0 <= i < |f| ensures mem[f[i]].size * HEADER < KERNBASE {
      if 0 < i && 0 < mem[f[i]].size {
        assert IsBlock(f, live, f[i]);
        assert f[i] + mem[f[i]].size - 1 in own;
      }
    }
  }

  /** What the loop of malloc() did: a new live block b of n units, or nothing.
      sbrk() was asked only if no free block was large enough. */
  ghost predicate Outcome(mem0: map<nat, Header>, own0: map<nat, nat>, live0: set<nat>, f0: seq<nat>,
                          mem: map<nat, Header>, own: map<nat, nat>, live: set<nat>, f: seq<nat>,
                          r: Result, proc: Process, sz: nat, n: nat) {
    match r
    case Block(b) =>
      && b !in live0 && live == live0 + {b} && b in mem && mem[b].size == n
      && Untouched(mem0, own0, live0, mem, own, live)
      && (if Roomy(mem0, f0, n) then own.Keys == own0.Keys && sz == proc.sz else Paid(own0, own, proc, sz, n))
    case NoMemory =>
      && mem == mem0 && own == own0 && live == live0 && f == f0 && !Roomy(mem0, f0, n)
      && Sbrk(proc, Argument(n)).addr.None? && !Sbrk(proc, Argument(n)).wiped && sz == Sbrk(proc, Argument(n)).sz
    case Lost =>
      && mem == mem0 && own == own0 && live == live0 && f == f0 && !Roomy(mem0, f0, n)
      && Sbrk(proc, Argument(n)).wiped && sz == Sbrk(proc, Argument(n)).sz
    case Wild =>
      && mem == mem0 && own == own0 && live == live0 && f == f0 && !Roomy(mem0, f0, n)
      && Sbrk(proc, Argument(n)).addr.Some? && Argument(n) <= 0 && sz == Sbrk(proc, Argument(n)).sz
  }

  /** sbrk() has given the units that were asked for. */
  ghost predicate Paid(own0: map<nat, nat>, own: map<nat, nat>, proc: Process, sz: nat, n: nat) {
    && Gains(own0, own, proc.sz / HEADER, Asked(n)) && 0 < Argument(n)
    && Sbrk(proc, Argument(n)).addr.Some? && sz == Sbrk(proc, Argument(n)).sz
  }

  lemma FoundOutcome(mem0: map<nat, Header>, own0: map<nat, nat>, live0: set<nat>, f0: seq<nat>,
                     mem1: map<nat, Header>, own1: map<nat, nat>, live1: set<nat>, f1: seq<nat>, asked: bool,
                     mem: map<nat, Header>, own: map<nat, nat>, live: set<nat>, f: seq<nat>,
                     b: nat, proc: Process, sz: nat, n: nat)
    requires Since(mem0, own0, live0, f0, mem1, own1, live1, f1, asked, proc, sz, n) && Roomy(mem1, f1, n)
    requires b !in live1 && live == live1 + {b} && b in mem && mem[b].size == n
    requires own.Keys == own1.Keys && Untouched(mem1, own1, live1, mem, own, live)
    ensures Outcome(mem0, own0, live0, f0, mem, own, live, f, Block(b), proc, sz, n)
  {
    forall u ensures u in own <==> u in own1 {
      assert u in own <==> u in own.Keys;
      assert u in own1 <==> u in own1.Keys;
    }
  }

  lemma PaidFits(own0: map<nat, nat>, own: map<nat, nat>, base: nat, proc: Process, sz: nat, nbytes: nat)
    requires nbytes < UINT && Fits(own0, base, proc.sz) && Paid(own0, own, proc, sz, Units(nbytes))
    ensures sz == proc.sz + Asked(Units(nbytes)) * HEADER && Fits(own, base, sz)
  {
    ArgumentFits(nbytes);
    SbrkGives(proc, Argument(Units(nbytes)));
  }

  lemma OutcomeMeans(mem0: map<nat, Header>, own0: map<nat, nat>, live0: set<nat>, f0: seq<nat>,
                     mem: map<nat, Header>, own: map<nat, nat>, live: set<nat>, f: seq<nat>,
                     base: nat, r: Result, proc: Process, sz: nat, nbytes: nat)
    requires nbytes < UINT && Fits(own0, base, proc.sz)
    requires Outcome(mem0, own0, live0, f0, mem, own, live, f, r, proc, sz, Units(nbytes))
    requires KERNBASE <= Units(nbytes) * HEADER ==> !Roomy(mem0, f0, Units(nbytes))
    ensures r.Block? ==> r.p in mem && (nbytes <= (mem[r.p].size - 1) * HEADER <==> nbytes <= BIGGEST)
    ensures r.Wild? <==> Sbrk(proc, Argument(Units(nbytes))).addr.Some? && BIGGEST < nbytes <= UINT - HEADER
    ensures r.Wild? ==> sz == Sbrk(proc, Argument(Units(nbytes))).sz <= proc.sz
    ensures r.Lost? <==> Sbrk(proc, Argument(Units(nbytes))).wiped
    ensures r.NoMemory? <==>
      !r.Lost? && Sbrk(proc, Argument(Units(nbytes))).addr.None? && !Roomy(mem0, f0, Units(nbytes))
    ensures r.NoMemory? || r.Lost? ==> sz == proc.sz
    ensures r.Block? || r.NoMemory? ==> Fits(own, base, sz)
    ensures r.Block? && own.Keys != own0.Keys ==>
      sz == proc.sz + Asked(Units(nbytes)) * HEADER && Gains(own0, own, proc.sz / HEADER, Asked(Units(nbytes)))
  {
    UnitsSuffice(nbytes);
    ArgumentFits(nbytes);
    SbrkGives(proc, Argument(Units(nbytes)));
    if r.Block? && Roomy(mem0, f0, Units(nbytes)) {
      assert forall u :: u in own ==> u in own.Keys;
    } else if r.Block? {
      PaidFits(own0, own, base, proc, sz, nbytes);
    }
  }

  ghost function IndexOf(f: seq<nat>, x: nat): (i: nat)
    requires x in f
    ensures i < |f| && f[i] == x
  {
    var i :| 0 <= i < |f| && f[i] == x;
    i
  }

  /** malloc() looks at p, behind prevp; the c blocks behind freep = f[s0] are too
      small. */
  ghost predicate Scanning(mem: map<nat, Header>, f: seq<nat>, freep: nat, s0: nat, c: nat, prevp: nat, p: nat,
                           n: nat) {
    && Headers(mem, f) && s0 < |f| && f[s0] == freep && c < |f|
    && p == f[Turn(s0, c, |f|)] && prevp == (if c == 0 then freep else f[Turn(s0, c - 1, |f|)])
    && (forall t :: 0 <= t < c ==> mem[f[Turn(s0, t, |f|)]].size < n)
  }

  lemma BeginScan(mem: map<nat, Header>, base: nat, f: seq<nat>, freep: nat, s0: nat, n: nat)
    requires Ring(mem, base, f) && s0 < |f| && f[s0] == freep
    ensures Scanning(mem, f, freep, s0, 0, freep, mem[freep].ptr, n)
  {
    assert mem[f[s0]].ptr == Succ(f, s0);
  }

  lemma ScanNext(mem: map<nat, Header>, f: seq<nat>, freep: nat, s0: nat, c: nat, prevp: nat, p: nat, n: nat)
    requires Scanning(mem, f, freep, s0, c, prevp, p, n) && Linked(mem, f) && mem[p].size < n && p != freep
    ensures c + 1 < |f| && Scanning(mem, f, freep, s0, c + 1, p, mem[p].ptr, n)
  {
    var i := Turn(s0, c, |f|);
    assert mem[f[i]].ptr == Succ(f, i);
    assert c == |f| - 1 ==> i == s0;
    forall t | 0 <= t < c + 1 ensures mem[f[Turn(s0, t, |f|)]].size < n {
      assert t == c || t < c;
    }
  }

  /** Back at freep with no success, every block is too small. */
  lemma ScannedAll(mem: map<nat, Header>, f: seq<nat>, freep: nat, s0: nat, c: nat, prevp: nat, p: nat, n: nat)
    requires Scanning(mem, f, freep, s0, c, prevp, p, n) && Spaced(mem, f) && mem[p].size < n && p == freep
    ensures !Roomy(mem, f, n)
  {
    SpacedDistinct(mem, f);
    assert Turn(s0, c, |f|) == s0 && c == |f| - 1;
    forall i | 0 <= i < |f| ensures mem[f[i]].size < n {
      var t := if i > s0 then i - s0 - 1 else i - s0 - 1 + |f|;
      assert Turn(s0, t, |f|) == i;
    }
  }

  lemma ScanFound(mem: map<nat, Header>, base: nat, f: seq<nat>, freep: nat, s0: nat, c: nat, prevp: nat, p: nat,
                  n: nat)
    requires Scanning(mem, f, freep, s0, c, prevp, p, n) && Ring(mem, base, f) && 0 < n <= mem[p].size
    ensures var i := Turn(s0, c, |f|); 0 < i && p == f[i] && prevp == f[i - 1]
    ensures Roomy(mem, f, n)
  {
  }

  /** What has happened since malloc() was called. */
  ghost predicate Since(mem0: map<nat, Header>, own0: map<nat, nat>, live0: set<nat>, f0: seq<nat>,
                        mem: map<nat, Header>, own: map<nat, nat>, live: set<nat>, f: seq<nat>,
                        asked: bool, proc: Process, sz: nat, n: nat) {
    && live == live0 && Untouched(mem0, own0, live0, mem, own, live)
    && (!asked ==> own == own0 && mem == mem0 && f == f0 && sz == proc.sz)
    && (asked ==> Roomy(mem, f, n) && !Roomy(mem0, f0, n) && Paid(own0, own, proc, sz, n))
  }

  /** The index of the block c + 1 places behind s0 on a circle of n. */
  function Turn(s0: nat, c: nat, n: nat): nat
    requires s0 < n && c < n
  {
    if s0 + 1 + c < n then s0 + 1 + c else s0 + 1 + c - n
  }

  /** The units of blocks that are live before and after keep block and content. */
  ghost predicate Untouched(mem: map<nat, Header>, own: map<nat, nat>, live: set<nat>, mem': map<nat, Header>,
                            own': map<nat, nat>, live': set<nat>) {
    forall u :: u in own && own[u] in live && own[u] in live' ==>
      u in mem && u in mem' && mem'[u] == mem[u] && u in own' && own'[u] == own[u]
  }

  lemma DonateWorks(mem: map<nat, Header>, own: map<nat, nat>, live: set<nat>, mem1: map<nat, Header>, own1: map<nat,
                    nat>, live1: set<nat>,
                    mem2: map<nat, Header>, own2: map<nat, nat>, live2: set<nat>, hp: nat, nu: nat)
    requires Untouched(mem, own, live, mem1, own1, live1) && Untouched(mem1, own1, live1, mem2, own2, live2)
    requires hp !in live && live1 == live + {hp} && live2 == live1 - {hp} && Gains(own, own1, hp, nu)
    requires own2.Keys == own1.Keys
    ensures live2 == live && Untouched(mem, own, live, mem2, own2, live2) && Gains(own, own2, hp, nu)
  {
    UntouchedTrans(mem, own, live, mem1, own1, live1, mem2, own2, live2);
    forall u ensures u in own2 <==> u in own1 {
      assert u in own2.Keys <==> u in own1.Keys;
    }
  }

  lemma UntouchedTrans(mem: map<nat, Header>, own: map<nat, nat>, live: set<nat>, mem1: map<nat, Header>, own1: map<nat,
                       nat>, live1: set<nat>,
                       mem2: map<nat, Header>, own2: map<nat, nat>, live2: set<nat>)
    requires Untouched(mem, own, live, mem1, own1, live1) && Untouched(mem1, own1, live1, mem2, own2, live2)
    requires live2 <= live1
    ensures Untouched(mem, own, live, mem2, own2, live2)
  {
  }

  /** Some free block has n units. */
  ghost predicate Roomy(mem: map<nat, Header>, f: seq<nat>, n: nat) {
    exists i :: 0 <= i < |f| && f[i] in mem && n <= mem[f[i]].size
  }

  lemma RoomyLess(mem: map<nat, Header>, f: seq<nat>, n: nat, m: nat)
    requires Roomy(mem, f, n) && m <= n
    ensures Roomy(mem, f, m)
  {
  }

  // What free() joins; see Plan.
  ghost function SliceStart(mem: map<nat, Header>, f: seq<nat>, k: nat, bp: nat): nat
    requires Headers(mem, f) && k < |f|
  {
    if f[k] + mem[f[k]].size == bp then k else k + 1
  }

  ghost function SliceEnd(mem: map<nat, Header>, f: seq<nat>, k: nat, bp: nat): nat
    requires Headers(mem, f) && bp in mem
  {
    if k + 1 < |f| && bp + mem[bp].size == f[k + 1] then k + 2 else k + 1
  }

  ghost function Start(mem: map<nat, Header>, f: seq<nat>, k: nat, bp: nat): nat
    requires Headers(mem, f) && k < |f|
  {
    if SliceStart(mem, f, k, bp) == k then f[k] else bp
  }

  ghost function Length(mem: map<nat, Header>, f: seq<nat>, k: nat, bp: nat): nat
    requires Headers(mem, f) && bp in mem && k < |f|
  {
    (if SliceStart(mem, f, k, bp) == k then mem[f[k]].size else 0) + mem[bp].size
    + (if SliceEnd(mem, f, k, bp) == k + 2 then mem[f[k + 1]].size else 0)
  }

  lemma Inserted(mem: map<nat, Header>, base: nat, f: seq<nat>, live: set<nat>, own: map<nat, nat>, k: nat, bp: nat,
                 i: nat, j: nat, a: nat, n: nat, mem': map<nat, Header>)
    requires Ring(mem, base, f) && Owned(mem, base, f, live, own) && bp in live && Place(f, k, bp)
    requires i == SliceStart(mem, f, k, bp) && j == SliceEnd(mem, f, k, bp) && a == Start(mem, f, k, bp)
    requires n == Length(mem, f, k, bp)
    requires mem[f[k]].ptr in mem && mem' == JoinPrev(JoinNext(mem, f[k], bp), f[k], bp)
    ensures i <= j <= |f| && Ring(mem', base, f[..i] + [a] + f[j..])
    ensures Owned(mem', base, f[..i] + [a] + f[j..], live - {bp}, Assign(own, a, n))
    ensures mem'.Keys == mem.Keys && f[k] in f[..i] + [a] + f[j..]
    ensures Untouched(mem, own, live, mem', Assign(own, a, n), live - {bp})
    ensures Roomy(mem', f[..i] + [a] + f[j..], mem[bp].size)
  {
    assert Plan(mem, f, k, bp, i, j, a, n);
    FreeWorks(mem, base, f, live, own, k, bp, i, j, a, n, mem');
    var g := f[..i] + [a] + f[j..];
    assert g[i] == a;
    assert i != k ==> g[k] == f[k];
    OthersStay(mem, base, f, live, own, k, bp, i, j, a, n, mem');
  }

  lemma OthersStay(mem: map<nat, Header>, base: nat, f: seq<nat>, live: set<nat>, own: map<nat, nat>, k: nat, bp: nat,
                   i: nat, j: nat, a: nat, n: nat, mem': map<nat, Header>)
    requires Ring(mem, base, f) && Owned(mem, base, f, live, own) && bp in live && Place(f, k, bp)
    requires Plan(mem, f, k, bp, i, j, a, n)
    requires mem[f[k]].ptr in mem && mem' == JoinPrev(JoinNext(mem, f[k], bp), f[k], bp)
    ensures Untouched(mem, own, live, mem', Assign(own, a, n), live - {bp})
  {
    forall u | u in own && own[u] in live - {bp} ensures mem'[u] == mem[u] && Assign(own, a, n)[u] == own[u] {
      UnitStays(mem, base, f, live, own, k, bp, i, j, a, n, u);
    }
  }

  lemma UnitStays(mem: map<nat, Header>, base: nat, f: seq<nat>, live: set<nat>, own: map<nat, nat>, k: nat, bp: nat,
                  i: nat, j: nat, a: nat, n: nat, u: nat)
    requires Ring(mem, base, f) && Owned(mem, base, f, live, own) && bp in live && Place(f, k, bp)
    requires Plan(mem, f, k, bp, i, j, a, n)
    requires u in own && own[u] in live - {bp}
    ensures u in mem && u != bp && u != f[k] && !(a <= u < a + n)
  {
    Neighbours(mem, base, f, live, own, k, bp);
    assert Owner(f, live, mem, u, own[u]);
    assert IsBlock(f, live, bp) && bp in own && own[bp] == bp;
    assert 0 < k ==> IsBlock(f, live, f[k]);
    PlanUnit(mem, base, f, live, own, k, bp, i, j, a, n, u);
  }

  lemma Above(mem: map<nat, Header>, base: nat, f: seq<nat>, i: nat)
    requires Ring(mem, base, f) && i < |f|
    ensures base <= f[i]
  {
    assert 0 < i ==> f[0] + mem[f[0]].size < f[i];
  }

  lemma FillGrows(mem: map<nat, Header>, base: nat, own: map<nat, nat>, hp: nat, nu: nat, mem': map<nat, Header>,
                  own': map<nat, nat>)
    requires 0 < nu && New(own, base, hp, nu)
    requires mem' == mem + Fill(hp, nu, Header(0, 0))[hp := Header(0, nu)] && own' == own + Fill(hp, nu, hp)
    ensures Grows(mem, base, own, hp, nu, mem', own')
    ensures forall u :: u in own' <==> u in own || hp <= u < hp + nu
  {
  }

  lemma GrowUntouched(mem: map<nat, Header>, base: nat, f: seq<nat>, live: set<nat>, own: map<nat, nat>, hp: nat,
                      nu: nat,
                      mem': map<nat, Header>, own': map<nat, nat>)
    requires Owned(mem, base, f, live, own) && Grows(mem, base, own, hp, nu, mem', own')
    ensures Untouched(mem, own, live, mem', own', live + {hp})
  {
    forall u | u in own ensures u in mem && u in mem' && mem'[u] == mem[u] && u in own' && own'[u] == own[u] {
      assert Owner(f, live, mem, u, own[u]);
    }
  }

  lemma GrowWorks(mem: map<nat, Header>, base: nat, f: seq<nat>, live: set<nat>, own: map<nat, nat>, hp: nat, nu: nat,
                  mem': map<nat, Header>, own': map<nat, nat>)
    requires Ring(mem, base, f) && Owned(mem, base, f, live, own) && 0 < nu && New(own, base, hp, nu)
    requires mem' == mem + Fill(hp, nu, Header(0, 0))[hp := Header(0, nu)] && own' == own + Fill(hp, nu, hp)
    ensures Ring(mem', base, f) && Owned(mem', base, f, live + {hp}, own') && hp !in live && hp in mem'
    ensures mem'[hp].size == nu
    ensures forall u :: u in own' <==> u in own || hp <= u < hp + nu
    ensures Untouched(mem, own, live, mem', own', live + {hp})
  {
    FillGrows(mem, base, own, hp, nu, mem', own');
    GrowRing(mem, base, f, live, own, hp, nu, mem', own');
    GrowOwned(mem, base, f, live, own, hp, nu, mem', own');
    GrowUntouched(mem, base, f, live, own, hp, nu, mem', own');
  }

  lemma WholeWorks(mem: map<nat, Header>, base: nat, f: seq<nat>, live: set<nat>, own: map<nat, nat>, i: nat,
                   mem': map<nat, Header>, g: seq<nat>)
    requires Ring(mem, base, f) && Owned(mem, base, f, live, own) && Unlinks(mem, f, i, mem')
    requires g == f[..i] + f[i + 1..]
    ensures Ring(mem', base, g) && Owned(mem', base, g, live + {f[i]}, own) && f[i] !in live && f[i - 1] in g
    ensures mem'[f[i]].size == mem[f[i]].size
    ensures Untouched(mem, own, live, mem', own, live + {f[i]})
  {
    SpacedDistinct(mem, f);
    TakeRing(mem, base, f, i, mem', g);
    TakeOwned(mem, base, f, live, own, i, mem', g);
    FreeNotLive(mem, base, f, live, own, i);
    assert g[i - 1] == f[i - 1];
  }

  lemma TailInHeap(mem: map<nat, Header>, base: nat, f: seq<nat>, live: set<nat>, own: map<nat, nat>, i: nat,
                   nunits: nat)
    requires Ring(mem, base, f) && Owned(mem, base, f, live, own) && 0 < i < |f| && 0 < nunits < mem[f[i]].size
    ensures f[i] + mem[f[i]].size - nunits in mem
  {
    TailIsNoBlock(mem, base, f, live, own, i, nunits);
  }

  lemma TailWorks(mem: map<nat, Header>, base: nat, f: seq<nat>, live: set<nat>, own: map<nat, nat>, i: nat,
                  nunits: nat, q: nat, mem': map<nat, Header>)
    requires Ring(mem, base, f) && Owned(mem, base, f, live, own) && Splits(mem, f, i, nunits, q, mem')
    ensures Ring(mem', base, f) && Owned(mem', base, f, live + {q}, Assign(own, q, nunits)) && q !in live
    ensures Untouched(mem, own, live, mem', Assign(own, q, nunits), live + {q})
  {
    TailIsNoBlock(mem, base, f, live, own, i, nunits);
    SpacedDistinct(mem, f);
    SplitRing(mem, base, f, i, nunits, q, mem');
    SplitOwned(mem, base, f, live, own, i, nunits, q, mem');
    SplitUntouched(mem, base, f, live, own, i, nunits, q, mem');
  }

  lemma FreeNotLive(mem: map<nat, Header>, base: nat, f: seq<nat>, live: set<nat>, own: map<nat, nat>, i: nat)
    requires Ring(mem, base, f) && Owned(mem, base, f, live, own) && 0 < i < |f|
    ensures f[i] !in live
    ensures forall u :: u in own && own[u] in live ==> u in mem && forall x :: 0 <= x < |f| ==> u != f[x]
  {
    SpacedDistinct(mem, f);
    forall u, x | u in own && own[u] in live && 0 <= x < |f| ensures u in mem && u != f[x] {
      assert Owner(f, live, mem, u, own[u]);
      assert 0 < x ==> IsBlock(f, live, f[x]);
    }
  }

  lemma SplitUntouched(mem: map<nat, Header>, base: nat, f: seq<nat>, live: set<nat>, own: map<nat, nat>, i: nat,
                       nunits: nat, q: nat, mem': map<nat, Header>)
    requires Ring(mem, base, f) && Owned(mem, base, f, live, own) && Splits(mem, f, i, nunits, q, mem') && q in own
    requires own[q] == f[i]
    ensures Untouched(mem, own, live, mem', Assign(own, q, nunits), live + {q})
  {
    FreeNotLive(mem, base, f, live, own, i);
    assert IsBlock(f, live, f[i]) by {
      SpacedDistinct(mem, f);
    }
    forall u | u in own && own[u] in live ensures u in mem && mem'[u] == mem[u] && Assign(own, q, nunits)[u] == own[u] {
      assert u in own && own[u] != f[i];
    }
  }

  /** Units above base that the allocator does not have. */
  ghost predicate New(own: map<nat, nat>, base: nat, hp: nat, nu: nat) {
    base < hp && forall u :: u in own ==> !(hp <= u < hp + nu)
  }

  function Fill<T>(hp: nat, nu: nat, v: T): (m: map<nat, T>)
    ensures forall u :: u in m <==> hp <= u < hp + nu
    ensures forall u :: u in m ==> m[u] == v
  {
    if nu == 0 then map[] else Fill(hp, nu - 1, v)[hp + nu - 1 := v]
  }

  /** Steps from j to t on a circle of n. */
  ghost function Distance(j: nat, t: nat, n: nat): nat
    requires j < n && t < n
  {
    if j <= t then t - j else t - j + n
  }

  /** The test of the loop of free() holds at the place of bp and nowhere else. */
  lemma AtPlace(mem: map<nat, Header>, base: nat, f: seq<nat>, j: nat, bp: nat, t: nat)
    requires Ring(mem, base, f) && base < bp && bp !in f && j < |f|
    requires t < |f| && f[t] < bp && (t + 1 < |f| ==> bp <= f[t + 1])
    ensures f[j] in mem && mem[f[j]].ptr == Succ(f, j)
    ensures f[j] < bp < Succ(f, j) || (f[j] >= Succ(f, j) && (bp > f[j] || bp < Succ(f, j))) <==> Place(f, j, bp)
    ensures j == t ==> Place(f, j, bp)
  {
    assert mem[f[j]].ptr == Succ(f, j);
    assert 0 < j ==> f[0] + mem[f[0]].size < f[j];
    assert j + 1 < |f| ==> f[j] + mem[f[j]].size < f[j + 1];
  }

  /** The block behind which bp belongs. */
  ghost function PlaceOf(f: seq<nat>, bp: nat): (k: nat)
    requires 0 < |f| && f[0] < bp
    ensures k < |f| && f[k] < bp && (k + 1 < |f| ==> bp <= f[k + 1])
  {
    if |f| == 1 || bp <= f[|f| - 1] then (if |f| == 1 then 0 else PlaceOf(f[..|f| - 1], bp)) else |f| - 1
  }
}
