/** sys_sbrk() and growproc(): what they do to the size of a process, in 32 bits. */
module ProcessSize {
  import opened Options

  const UINT: nat := 0x1_0000_0000
  const KERNBASE: nat := 0x8000_0000

  /** curproc->sz and curproc->isthread, and whether allocuvm() finds the memory. */
  datatype Process = Process(sz: nat, isthread: bool, room: bool)

  /** What sbrk() returns, None for -1, curproc->sz after it, and whether it has
      unmapped every page. */
  datatype Moved = Moved(addr: Option<nat>, sz: nat, wiped: bool)

  /** The int that a uint becomes as an argument. */
  function Int(x: nat): int {
    if x % UINT < UINT / 2 then x % UINT else x % UINT - UINT
  }

  /** The size that deallocuvm() returns. */
  function Shrunk(oldsz: nat, newsz: nat): nat {
    if newsz >= oldsz then oldsz else newsz
  }

  function Sbrk(p: Process, n: int): Moved {
    if n > 0 then
      if (p.sz + n) % UINT >= KERNBASE || !p.room then Moved(None, p.sz, false)
      else Moved(Some(p.sz), (p.sz + n) % UINT, false)
    else if n < 0 then
      if p.isthread then Moved(None, p.sz, false)
      else if Shrunk(p.sz, (p.sz + n) % UINT) == 0 then Moved(None, p.sz, 0 < p.sz)
      else Moved(Some(p.sz), Shrunk(p.sz, (p.sz + n) % UINT), false)
    else
      Moved(Some(p.sz), p.sz, false)
  }

  /** sbrk() that returns gives memory, n bytes from the old break on, if and only
      if its argument is positive.  sbrk() that fails leaves the process alone, except
      for the argument -sz: deallocuvm() has then unmapped all of it, and growproc()
      takes the new size 0 for a failure. */
  lemma SbrkGives(p: Process, n: int)
    requires p.sz < KERNBASE && -(UINT / 2) <= n < UINT / 2
    ensures Sbrk(p, n).sz < KERNBASE
    ensures Sbrk(p, n).addr.Some? ==> Sbrk(p, n).addr.value == p.sz && (p.sz < Sbrk(p, n).sz <==> 0 < n)
    ensures Sbrk(p, n).addr.Some? && 0 < n ==> Sbrk(p, n).sz == p.sz + n
    ensures Sbrk(p, n).addr.None? ==> Sbrk(p, n).sz == p.sz
    ensures Sbrk(p, n).wiped <==> !p.isthread && 0 < p.sz == -n
    ensures Sbrk(p, n).wiped ==> Sbrk(p, n).addr.None?
  {
  }
}
