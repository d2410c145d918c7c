/**
  umalloc.c: the user-level allocator.  Addresses count units of the size of a
  header.  The free blocks form a circle through base in the order of their
  addresses; their headers are in the heap itself.
*/
module Umalloc {
  import opened Options

  const HEADER: nat := 8

  datatype Header = Header(ptr: nat, size: nat)

  // ---------------------------------------------------------------- the circle

  function Succ(f: seq<nat>, i: nat): nat
    requires i < |f|
  {
    if i + 1 < |f| then f[i + 1] else f[0]
  }

  ghost predicate Headers(mem: map<nat, Header>, f: seq<nat>) {
    forall i :: 0 <= i < |f| ==> f[i] in mem && (0 < i ==> 0 < mem[f[i]].size)
  }

  ghost predicate Linked(mem: map<nat, Header>, f: seq<nat>)
    requires Headers(mem, f)
  {
    forall i {:trigger Succ(f, i)} :: 0 <= i < |f| ==> mem[f[i]].ptr == Succ(f, i)
  }

  ghost predicate Spaced(mem: map<nat, Header>, f: seq<nat>)
    requires Headers(mem, f)
  {
    forall i, j :: 0 <= i < j < |f| ==> f[i] + mem[f[i]].size < f[j]
  }

  /** The circle is base and then free blocks in address order; between two there
      is a gap, so no two touch. */
  ghost predicate Ring(mem: map<nat, Header>, base: nat, f: seq<nat>) {
    && 0 < |f| && f[0] == base && Headers(mem, f) && mem[base].size == 0
    && Linked(mem, f) && Spaced(mem, f)
  }

  /** a is the header of a block, free or live. */
  predicate IsBlock(f: seq<nat>, live: set<nat>, a: nat) {
    (a in f && a != f[0]) || a in live
  }

  predicate Owner(f: seq<nat>, live: set<nat>, mem: map<nat, Header>, u: nat, a: nat) {
    u in mem && a in mem && IsBlock(f, live, a) && a <= u < a + mem[a].size
  }

  ghost predicate LiveOk(mem: map<nat, Header>, f: seq<nat>, live: set<nat>) {
    forall a :: a in live ==> a in mem && a !in f && 0 < mem[a].size
  }

  ghost predicate UnitsOk(mem: map<nat, Header>, base: nat, f: seq<nat>, live: set<nat>, own: map<nat, nat>) {
    forall u :: u in own ==> base < u && Owner(f, live, mem, u, own[u])
  }

  ghost predicate RangesOk(mem: map<nat, Header>, f: seq<nat>, live: set<nat>, own: map<nat, nat>) {
    forall a: nat, u: nat {:trigger IsBlock(f, live, a), u in own} ::
      IsBlock(f, live, a) && a in mem && a <= u < a + mem[a].size ==> u in own && own[u] == a
  }

  /** Every unit from sbrk() lies in exactly one block, and blocks have no others. */
  ghost predicate Owned(mem: map<nat, Header>, base: nat, f: seq<nat>, live: set<nat>, own: map<nat, nat>) {
    LiveOk(mem, f, live) && UnitsOk(mem, base, f, live, own) && RangesOk(mem, f, live, own)
  }

  // ---------------------------------------------------------------- what free() does to the circle

  /** g is f with the blocks f[i..j] given way to one block a. */
  ghost predicate Replaced(f: seq<nat>, i: nat, j: nat, a: nat, g: seq<nat>) {
    && 0 < i <= j <= |f| && |g| == i + 1 + |f| - j
    && (forall x :: 0 <= x < i ==> g[x] == f[x]) && g[i] == a
    && (forall x :: i < x < |g| ==> g[x] == f[x - i - 1 + j])
  }

  lemma SliceReplaced(f: seq<nat>, i: nat, j: nat, a: nat)
    requires 0 < i <= j <= |f|
    ensures Replaced(f, i, j, a, f[..i] + [a] + f[j..])
  {
  }

  /** Headers of the circle outside f[i..j] keep their sizes, and their pointers
      but for the one before the new block. */
  ghost predicate Relinked(mem: map<nat, Header>, f: seq<nat>, i: nat, j: nat, a: nat, mem': map<nat, Header>)
    requires 0 < i <= j <= |f|
  {
    && a in mem' && mem'[a].ptr == (if j < |f| then f[j] else f[0]) && 0 < mem'[a].size
    && (forall x :: 0 <= x < |f| && !(i <= x < j) ==> f[x] in mem && f[x] in mem' && mem'[f[x]].size == mem[f[x]].size)
    && (forall x :: 0 <= x < |f| && !(i - 1 <= x < j) ==> mem'[f[x]].ptr == mem[f[x]].ptr)
    && mem'[f[i - 1]].ptr == a
  }

  lemma ReplaceHeaders(mem: map<nat, Header>, f: seq<nat>, i: nat, j: nat, a: nat, mem': map<nat, Header>, g: seq<nat>)
    requires Headers(mem, f) && Replaced(f, i, j, a, g) && Relinked(mem, f, i, j, a, mem')
    ensures Headers(mem', g)
  {
  }

  lemma ReplaceLinked(mem: map<nat, Header>, f: seq<nat>, i: nat, j: nat, a: nat, mem': map<nat, Header>, g: seq<nat>)
    requires Headers(mem, f) && Linked(mem, f) && Replaced(f, i, j, a, g) && Relinked(mem, f, i, j, a, mem')
    requires Headers(mem', g)
    ensures Linked(mem', g)
  {
    forall x | 0 <= x < |g| ensures mem'[g[x]].ptr == Succ(g, x) {
      if x < i - 1 {
        assert mem[f[x]].ptr == Succ(f, x);
      } else if x > i {
        assert mem[f[x - i - 1 + j]].ptr == Succ(f, x - i - 1 + j);
      }
    }
  }

  lemma ReplaceSpaced(mem: map<nat, Header>, f: seq<nat>, i: nat, j: nat, a: nat, mem': map<nat, Header>, g: seq<nat>)
    requires Headers(mem, f) && Spaced(mem, f) && Replaced(f, i, j, a, g) && Relinked(mem, f, i, j, a, mem')
    requires Headers(mem', g)
    requires f[i - 1] + mem[f[i - 1]].size < a && (j < |f| ==> a + mem'[a].size < f[j])
    ensures Spaced(mem', g)
  {
    forall x, y | 0 <= x < y < |g| ensures g[x] + mem'[g[x]].size < g[y] {
      var fy := if y < i then y else y - i - 1 + j;
      if x == i {
        assert fy == j || f[j] + mem[f[j]].size < f[fy];
      } else if y == i {
        assert x == i - 1 || f[x] + mem[f[x]].size < f[i - 1];
      } else {
        var fx := if x < i then x else x - i - 1 + j;
        assert f[fx] + mem[f[fx]].size < f[fy];
      }
    }
  }

  // ---------------------------------------------------------------- who owns the units

  /** One block ends where or before the next begins. */
  lemma NoOverlap(mem: map<nat, Header>, base: nat, f: seq<nat>, live: set<nat>, own: map<nat, nat>, a: nat, b: nat)
    requires Owned(mem, base, f, live, own) && IsBlock(f, live, a) && IsBlock(f, live, b)
    requires a in mem && b in mem && a < b && 0 < mem[b].size
    ensures a + mem[a].size <= b
  {
    assert b in own && own[b] == b;
  }

  ghost predicate InSlice(f: seq<nat>, i: nat, j: nat, a: nat) {
    exists x :: i <= x < j && x < |f| && f[x] == a
  }

  /** a takes over the units of the live block bp and of the free blocks f[i..j]. */
  ghost predicate Absorbs(f: seq<nat>, i: nat, j: nat, a: nat, n: nat, bp: nat, own: map<nat, nat>) {
    forall u :: u in own ==> (a <= u < a + n <==> own[u] == bp || InSlice(f, i, j, own[u]))
  }

  function Assign(own: map<nat, nat>, a: nat, n: nat): map<nat, nat> {
    map u | u in own :: if a <= u < a + n then a else own[u]
  }

  lemma BlocksAfter(mem: map<nat, Header>, base: nat, f: seq<nat>, live: set<nat>, i: nat, j: nat, a: nat, g: seq<nat>,
                    bp: nat, b: nat)
    requires Headers(mem, f) && Spaced(mem, f) && Replaced(f, i, j, a, g) && b != a && bp in live
    requires forall x :: x in live ==> x !in f
    ensures IsBlock(g, live - {bp}, b) <==> IsBlock(f, live, b) && b != bp && !InSlice(f, i, j, b)
  {
    if b in g && b != g[0] {
      var x :| 0 <= x < |g| && g[x] == b;
      assert b == f[if x < i then x else x - i - 1 + j];
    }
    if b in f && b != f[0] && !InSlice(f, i, j, b) {
      var x :| 0 <= x < |f| && f[x] == b;
      assert g[if x < i then x else x - j + i + 1] == b;
    }
  }

  /** The blocks after, other than a, are blocks of before that did not go into a. */
  ghost predicate Kept(mem: map<nat, Header>, f: seq<nat>, live: set<nat>, i: nat, j: nat, a: nat, bp: nat,
                       mem': map<nat, Header>, g: seq<nat>, live': set<nat>) {
    forall b: nat :: b != a ==>
      && (IsBlock(g, live', b) <==> IsBlock(f, live, b) && b != bp && !InSlice(f, i, j, b))
      && (IsBlock(g, live', b) ==> b in mem && b in mem' && mem'[b].size == mem[b].size)
  }

  lemma UnitsAfter(mem: map<nat, Header>, base: nat, f: seq<nat>, live: set<nat>, own: map<nat, nat>, i: nat, j: nat,
                   a: nat, bp: nat,
                   mem': map<nat, Header>, g: seq<nat>, live': set<nat>)
    requires UnitsOk(mem, base, f, live, own) && Kept(mem, f, live, i, j, a, bp, mem', g, live')
    requires a in mem' && IsBlock(g, live', a) && mem'.Keys == mem.Keys
    requires Absorbs(f, i, j, a, mem'[a].size, bp, own) && (a == bp || InSlice(f, i, j, a))
    ensures UnitsOk(mem', base, g, live', Assign(own, a, mem'[a].size))
  {
    var own' := Assign(own, a, mem'[a].size);
    forall u | u in own' ensures base < u && Owner(g, live', mem', u, own'[u]) {
      assert Owner(f, live, mem, u, own[u]);
    }
  }

  lemma RangesAfter(mem: map<nat, Header>, f: seq<nat>, live: set<nat>, own: map<nat, nat>, i: nat, j: nat, a: nat,
                    bp: nat,
                    mem': map<nat, Header>, g: seq<nat>, live': set<nat>)
    requires RangesOk(mem, f, live, own) && Kept(mem, f, live, i, j, a, bp, mem', g, live') && a in mem'
    requires Absorbs(f, i, j, a, mem'[a].size, bp, own) && forall u: nat :: a <= u < a + mem'[a].size ==> u in own
    ensures RangesOk(mem', g, live', Assign(own, a, mem'[a].size))
  {
    var own' := Assign(own, a, mem'[a].size);
    forall b: nat, u: nat | IsBlock(g, live', b) && b in mem' && b <= u < b + mem'[b].size
      ensures u in own' && own'[u] == b
    {
      if b != a {
        assert u in own && own[u] == b;
      }
    }
  }

  lemma FreeKeepsOwned(mem: map<nat, Header>, base: nat, f: seq<nat>, live: set<nat>, own: map<nat, nat>, i: nat,
                       j: nat, a: nat, bp: nat,
                       mem': map<nat, Header>, g: seq<nat>)
    requires Ring(mem, base, f) && Owned(mem, base, f, live, own) && bp in live && base < a
    requires Replaced(f, i, j, a, g) && Relinked(mem, f, i, j, a, mem') && mem'.Keys == mem.Keys
    requires forall b :: b in live && b != bp ==> mem'[b] == mem[b]
    requires Absorbs(f, i, j, a, mem'[a].size, bp, own) && (a == bp || InSlice(f, i, j, a))
    requires forall u: nat :: a <= u < a + mem'[a].size ==> u in own
    ensures Owned(mem', base, g, live - {bp}, Assign(own, a, mem'[a].size))
  {
    var live' := live - {bp};
    forall b: nat | b != a
      ensures IsBlock(g, live', b) <==> IsBlock(f, live, b) && b != bp && !InSlice(f, i, j, b)
      ensures IsBlock(g, live', b) ==> b in mem && b in mem' && mem'[b].size == mem[b].size
    {
      BlocksAfter(mem, base, f, live, i, j, a, g, bp, b);
      SizeAfter(mem, f, live, i, j, a, mem', bp, b);
    }
    assert a == g[i];
    UnitsAfter(mem, base, f, live, own, i, j, a, bp, mem', g, live');
    RangesAfter(mem, f, live, own, i, j, a, bp, mem', g, live');
    LiveAfter(mem, f, live, i, j, a, bp, mem', g);
  }

  lemma LiveAfter(mem: map<nat, Header>, f: seq<nat>, live: set<nat>, i: nat, j: nat, a: nat, bp: nat, mem': map<nat,
                  Header>, g: seq<nat>)
    requires LiveOk(mem, f, live) && Replaced(f, i, j, a, g) && mem'.Keys == mem.Keys
    requires (a == bp || InSlice(f, i, j, a))
    requires forall b :: b in live && b != bp ==> mem'[b] == mem[b]
    ensures LiveOk(mem', g, live - {bp})
  {
    forall b, x | b in live && b != bp && 0 <= x < |g| ensures g[x] != b {
      var y := if x < i then x else x - i - 1 + j;
      assert x == i || g[x] == f[y];
    }
  }

  lemma SizeAfter(mem: map<nat, Header>, f: seq<nat>, live: set<nat>, i: nat, j: nat, a: nat, mem': map<nat, Header>,
                  bp: nat, b: nat)
    requires Headers(mem, f) && 0 < i <= j <= |f| && Relinked(mem, f, i, j, a, mem') && mem'.Keys == mem.Keys
    requires forall x :: x in live ==> x in mem
    requires forall x :: x in live && x != bp ==> mem'[x] == mem[x]
    ensures IsBlock(f, live, b) && b != bp && !InSlice(f, i, j, b) ==> b in mem && mem'[b].size == mem[b].size
  {
    if b in f {
      var x :| 0 <= x < |f| && f[x] == b;
    }
  }

  // ---------------------------------------------------------------- free()

  /** Where bp belongs in the circle: behind f[k] and before the next. */
  ghost predicate Place(f: seq<nat>, k: nat, bp: nat) {
    k < |f| && f[k] < bp && (k + 1 < |f| ==> bp < f[k + 1])
  }

  /** The two ifs of free(), on memory. */
  function JoinNext(mem: map<nat, Header>, p: nat, bp: nat): map<nat, Header>
    requires p in mem && bp in mem && mem[p].ptr in mem
  {
    var next := mem[p].ptr;
    if bp + mem[bp].size == next then mem[bp := Header(mem[next].ptr, mem[bp].size + mem[next].size)]
    else mem[bp := mem[bp].(ptr := next)]
  }

  function JoinPrev(mem: map<nat, Header>, p: nat, bp: nat): map<nat, Header>
    requires p in mem && bp in mem
  {
    if p + mem[p].size == bp then mem[p := Header(mem[bp].ptr, mem[p].size + mem[bp].size)]
    else mem[p := mem[p].(ptr := bp)]
  }

  /** The free blocks that bp grows together with, f[i..j], and the result. */
  ghost predicate Plan(mem: map<nat, Header>, f: seq<nat>, k: nat, bp: nat, i: nat, j: nat, a: nat, n: nat)
    requires Headers(mem, f) && Place(f, k, bp) && bp in mem
  {
    && (if f[k] + mem[f[k]].size == bp then i == k && a == f[k] else i == k + 1 && a == bp)
    && (if k + 1 < |f| && bp + mem[bp].size == f[k + 1] then j == k + 2 else j == k + 1)
    && n == (if i == k then mem[f[k]].size else 0) + mem[bp].size + (if j == k + 2 then mem[f[k + 1]].size else 0)
  }

  /** The neighbours of bp end before it and begin behind it. */
  lemma Neighbours(mem: map<nat, Header>, base: nat, f: seq<nat>, live: set<nat>, own: map<nat, nat>, k: nat, bp: nat)
    requires Ring(mem, base, f) && Owned(mem, base, f, live, own) && bp in live && Place(f, k, bp)
    ensures base < bp && f[k] + mem[f[k]].size <= bp && (k + 1 < |f| ==> bp + mem[bp].size <= f[k + 1])
    ensures f[k] + mem[f[k]].size == bp ==> 0 < k
  {
    assert IsBlock(f, live, bp) && bp in own && own[bp] == bp;
    assert forall x :: 0 < x < |f| ==> base < f[x];
    if 0 < k {
      NoOverlap(mem, base, f, live, own, f[k], bp);
    }
    if k + 1 < |f| {
      NoOverlap(mem, base, f, live, own, bp, f[k + 1]);
    }
  }

  ghost predicate Distinct(f: seq<nat>) {
    forall x, y :: 0 <= x < y < |f| ==> f[x] != f[y]
  }

  lemma SpacedDistinct(mem: map<nat, Header>, f: seq<nat>)
    requires Headers(mem, f) && Spaced(mem, f)
    ensures Distinct(f)
  {
  }

  ghost function Behind(f: seq<nat>, j: nat): nat
    requires 0 < |f|
  {
    if j < |f| then f[j] else f[0]
  }

  /** The headers that the two ifs leave behind. */
  lemma JoinValues(mem: map<nat, Header>, f: seq<nat>, k: nat, bp: nat, i: nat, j: nat, a: nat, n: nat, mem': map<nat,
                   Header>)
    requires Headers(mem, f) && Linked(mem, f) && Distinct(f) && Place(f, k, bp) && bp in mem && bp !in f
    requires Plan(mem, f, k, bp, i, j, a, n)
    requires f[0] < bp && mem[f[k]].ptr in mem && mem' == JoinPrev(JoinNext(mem, f[k], bp), f[k], bp)
    ensures mem'.Keys == mem.Keys && a in mem' && mem'[a] == Header(Behind(f, j), n)
    ensures i != k ==> mem'[f[k]] == Header(bp, mem[f[k]].size)
    ensures forall b :: b in mem && b != bp && b != f[k] ==> mem'[b] == mem[b]
  {
    assert mem[f[k]].ptr == Succ(f, k);
    assert k + 1 < |f| ==> mem[f[k + 1]].ptr == Succ(f, k + 1);
  }

  lemma PlanRelinks(mem: map<nat, Header>, f: seq<nat>, k: nat, bp: nat, i: nat, j: nat, a: nat, n: nat, mem': map<nat,
                    Header>)
    requires Headers(mem, f) && Linked(mem, f) && Distinct(f) && Place(f, k, bp) && bp in mem && bp !in f
    requires Plan(mem, f, k, bp, i, j, a, n)
    requires i == k ==> 0 < k
    requires mem'.Keys == mem.Keys && a in mem' && mem'[a] == Header(Behind(f, j), n) && 0 < n
    requires i != k ==> mem'[f[k]] == Header(bp, mem[f[k]].size)
    requires forall b :: b in mem && b != bp && b != f[k] ==> mem'[b] == mem[b]
    ensures 0 < i <= j <= |f| && Relinked(mem, f, i, j, a, mem')
  {
    assert forall x :: 0 <= x < |f| && x != k ==> mem'[f[x]] == mem[f[x]];
    if i == k {
      assert mem[f[k - 1]].ptr == Succ(f, k - 1);
    }
  }

  lemma PlanAbsorbs(mem: map<nat, Header>, base: nat, f: seq<nat>, live: set<nat>, own: map<nat, nat>, k: nat, bp: nat,
                    i: nat, j: nat, a: nat, n: nat)
    requires Ring(mem, base, f) && Owned(mem, base, f, live, own) && bp in live && Place(f, k, bp)
    requires Plan(mem, f, k, bp, i, j, a, n)
    requires i == k ==> 0 < k
    ensures Absorbs(f, i, j, a, n, bp, own) && (a == bp || InSlice(f, i, j, a))
  {
    forall u | u in own ensures a <= u < a + n <==> own[u] == bp || InSlice(f, i, j, own[u]) {
      PlanUnit(mem, base, f, live, own, k, bp, i, j, a, n, u);
    }
    assert i == k ==> InSlice(f, i, j, f[k]);
  }

  lemma PlanRange(mem: map<nat, Header>, f: seq<nat>, live: set<nat>, own: map<nat, nat>, k: nat, bp: nat, i: nat,
                  j: nat, a: nat, n: nat, u: nat)
    requires Headers(mem, f) && Distinct(f) && RangesOk(mem, f, live, own) && bp in live && bp in mem
    requires Place(f, k, bp) && Plan(mem, f, k, bp, i, j, a, n) && (i == k ==> 0 < k) && a <= u < a + n
    ensures u in own
  {
    assert IsBlock(f, live, bp);
    assert i == k ==> IsBlock(f, live, f[k]);
    assert j == k + 2 ==> IsBlock(f, live, f[k + 1]);
  }

  lemma PlanUnit(mem: map<nat, Header>, base: nat, f: seq<nat>, live: set<nat>, own: map<nat, nat>, k: nat, bp: nat,
                 i: nat, j: nat, a: nat, n: nat, u: nat)
    requires Ring(mem, base, f) && Owned(mem, base, f, live, own) && bp in live && Place(f, k, bp)
    requires Plan(mem, f, k, bp, i, j, a, n)
    requires u in own && (i == k ==> 0 < k)
    ensures a <= u < a + n <==> own[u] == bp || InSlice(f, i, j, own[u])
  {
    assert Owner(f, live, mem, u, own[u]) && IsBlock(f, live, bp);
    assert i == k ==> f[k] != f[0] && IsBlock(f, live, f[k]);
    assert j == k + 2 ==> f[k + 1] != f[0] && IsBlock(f, live, f[k + 1]);
    assert InSlice(f, i, j, own[u]) <==> (i == k && own[u] == f[k]) || (j == k + 2 && own[u] == f[k + 1]);
  }

  lemma FreeRing(mem: map<nat, Header>, base: nat, f: seq<nat>, k: nat, bp: nat, i: nat, j: nat, a: nat, n: nat,
                 mem': map<nat, Header>, g: seq<nat>)
    requires Ring(mem, base, f) && bp in mem && Place(f, k, bp) && Plan(mem, f, k, bp, i, j, a, n) && 0 < i <= j <= |f|
    requires f[k] + mem[f[k]].size <= bp && (k + 1 < |f| ==> bp + mem[bp].size <= f[k + 1])
    requires Relinked(mem, f, i, j, a, mem') && mem'[a].size == n && Replaced(f, i, j, a, g)
    ensures Ring(mem', base, g)
  {
    assert f[0] == base && mem'[f[0]].size == mem[f[0]].size;
    ReplaceHeaders(mem, f, i, j, a, mem', g);
    ReplaceLinked(mem, f, i, j, a, mem', g);
    PlanGaps(mem, f, k, bp, i, j, a, n);
    ReplaceSpaced(mem, f, i, j, a, mem', g);
  }

  lemma PlanGaps(mem: map<nat, Header>, f: seq<nat>, k: nat, bp: nat, i: nat, j: nat, a: nat, n: nat)
    requires Headers(mem, f) && Spaced(mem, f) && bp in mem && Place(f, k, bp) && Plan(mem, f, k, bp, i, j, a, n)
    requires 0 < i <= j <= |f|
    requires f[k] + mem[f[k]].size <= bp && (k + 1 < |f| ==> bp + mem[bp].size <= f[k + 1])
    ensures f[i - 1] + mem[f[i - 1]].size < a && (j < |f| ==> a + n < f[j])
  {
    assert i == k ==> f[k - 1] + mem[f[k - 1]].size < f[k];
    assert k + 2 < |f| ==> f[k + 1] + mem[f[k + 1]].size < f[k + 2];
  }

  /** free() puts bp into the circle and joins it with its neighbours. */
  lemma FreeWorks(mem: map<nat, Header>, base: nat, f: seq<nat>, live: set<nat>, own: map<nat, nat>, k: nat, bp: nat,
                  i: nat, j: nat, a: nat, n: nat, mem': map<nat, Header>)
    requires Ring(mem, base, f) && Owned(mem, base, f, live, own) && bp in live && Place(f, k, bp)
    requires Plan(mem, f, k, bp, i, j, a, n)
    requires mem[f[k]].ptr in mem && mem' == JoinPrev(JoinNext(mem, f[k], bp), f[k], bp)
    ensures i <= j <= |f| && Ring(mem', base, f[..i] + [a] + f[j..])
    ensures Owned(mem', base, f[..i] + [a] + f[j..], live - {bp}, Assign(own, a, n))
    ensures mem'.Keys == mem.Keys && mem'[a].size == n && forall u :: u in mem && u != bp && u != f[k] ==>
      mem'[u] == mem[u]
  {
    Neighbours(mem, base, f, live, own, k, bp);
    SpacedDistinct(mem, f);
    JoinValues(mem, f, k, bp, i, j, a, n, mem');
    PlanRelinks(mem, f, k, bp, i, j, a, n, mem');
    var g := f[..i] + [a] + f[j..];
    SliceReplaced(f, i, j, a);
    FreeRing(mem, base, f, k, bp, i, j, a, n, mem', g);
    PlanAbsorbs(mem, base, f, live, own, k, bp, i, j, a, n);
    forall u: nat | a <= u < a + n ensures u in own {
      PlanRange(mem, f, live, own, k, bp, i, j, a, n, u);
    }
    FreeKeepsOwned(mem, base, f, live, own, i, j, a, bp, mem', g);
  }

  // ---------------------------------------------------------------- malloc()

  /** g is f without block i. */
  ghost predicate Without(f: seq<nat>, i: nat, g: seq<nat>) {
    && 0 < i < |f| && |g| == |f| - 1 && (forall x :: 0 <= x < i ==> g[x] == f[x])
    && (forall x :: i <= x < |g| ==> g[x] == f[x + 1])
  }

  /** prevp->s.ptr = p->s.ptr */
  ghost predicate Unlinks(mem: map<nat, Header>, f: seq<nat>, i: nat, mem': map<nat, Header>) {
    && 0 < i < |f| && f[i - 1] in mem && f[i] in mem && mem' == mem[f[i - 1] := mem[f[i - 1]].(ptr := mem[f[i]].ptr)]
  }

  lemma TakeLinked(mem: map<nat, Header>, f: seq<nat>, i: nat, mem': map<nat, Header>, g: seq<nat>)
    requires Headers(mem, f) && Linked(mem, f) && Distinct(f) && Without(f, i, g) && Unlinks(mem, f, i, mem')
    requires Headers(mem', g)
    ensures Linked(mem', g)
  {
    forall x | 0 <= x < |g| ensures mem'[g[x]].ptr == Succ(g, x) {
      var y := if x < i then x else x + 1;
      assert g[x] == f[y];
      assert mem[f[y]].ptr == Succ(f, y) && mem[f[i]].ptr == Succ(f, i);
    }
  }

  lemma TakeSpaced(mem: map<nat, Header>, f: seq<nat>, i: nat, mem': map<nat, Header>, g: seq<nat>)
    requires Headers(mem, f) && Spaced(mem, f) && Without(f, i, g) && Unlinks(mem, f, i, mem') && Headers(mem', g)
    ensures Spaced(mem', g)
  {
    forall x, y | 0 <= x < y < |g| ensures g[x] + mem'[g[x]].size < g[y] {
      var fx, fy := if x < i then x else x + 1, if y < i then y else y + 1;
      assert g[x] == f[fx] && g[y] == f[fy];
      assert f[fx] + mem[f[fx]].size < f[fy];
    }
  }

  lemma TakeHeaders(mem: map<nat, Header>, f: seq<nat>, i: nat, mem': map<nat, Header>, g: seq<nat>)
    requires Headers(mem, f) && Without(f, i, g) && Unlinks(mem, f, i, mem')
    ensures Headers(mem', g)
  {
    forall x | 0 <= x < |g| ensures g[x] in mem' && (0 < x ==> 0 < mem'[g[x]].size) {
      assert g[x] == f[if x < i then x else x + 1];
    }
  }

  /** The circle without the block that malloc() takes whole. */
  lemma TakeRing(mem: map<nat, Header>, base: nat, f: seq<nat>, i: nat, mem': map<nat, Header>, g: seq<nat>)
    requires Ring(mem, base, f) && Without(f, i, g) && Unlinks(mem, f, i, mem')
    ensures Ring(mem', base, g)
  {
    SpacedDistinct(mem, f);
    TakeHeaders(mem, f, i, mem', g);
    TakeLinked(mem, f, i, mem', g);
    TakeSpaced(mem, f, i, mem', g);
  }

  lemma TakeOwned(mem: map<nat, Header>, base: nat, f: seq<nat>, live: set<nat>, own: map<nat, nat>, i: nat,
                  mem': map<nat, Header>, g: seq<nat>)
    requires Headers(mem, f) && Distinct(f) && Owned(mem, base, f, live, own) && Without(f, i, g)
    requires Unlinks(mem, f, i, mem')
    ensures Owned(mem', base, g, live + {f[i]}, own)
  {
    forall b: nat ensures IsBlock(g, live + {f[i]}, b) <==> IsBlock(f, live, b) {
      TakeBlocks(f, live, i, g, b);
    }
    forall u | u in own ensures base < u && Owner(g, live + {f[i]}, mem', u, own[u]) {
      assert Owner(f, live, mem, u, own[u]);
    }
  }

  lemma TakeBlocks(f: seq<nat>, live: set<nat>, i: nat, g: seq<nat>, b: nat)
    requires Distinct(f) && Without(f, i, g)
    ensures IsBlock(g, live + {f[i]}, b) <==> IsBlock(f, live, b)
  {
    if b in f {
      var x :| 0 <= x < |f| && f[x] == b;
      assert x != i ==> b == g[if x < i then x else x - 1];
    }
  }

  /** p->s.size -= nunits, and a new header for the tail q of the block f[i]. */
  ghost predicate Splits(mem: map<nat, Header>, f: seq<nat>, i: nat, nunits: nat, q: nat, mem': map<nat, Header>) {
    && 0 < i < |f| && f[i] in mem && 0 < nunits < mem[f[i]].size && q == f[i] + mem[f[i]].size - nunits && q in mem
    && mem' == mem[f[i] := mem[f[i]].(size := mem[f[i]].size - nunits)][q := mem[q].(size := nunits)]
  }

  lemma SplitRing(mem: map<nat, Header>, base: nat, f: seq<nat>, i: nat, nunits: nat, q: nat, mem': map<nat, Header>)
    requires Ring(mem, base, f) && Splits(mem, f, i, nunits, q, mem') && q !in f
    ensures Ring(mem', base, f)
  {
    SpacedDistinct(mem, f);
    assert forall x :: 0 <= x < |f| ==> mem'[f[x]].ptr == mem[f[x]].ptr && mem'[f[x]].size <= mem[f[x]].size;
    assert forall x :: 0 <= x < |f| && x != i ==> mem'[f[x]].size == mem[f[x]].size;
  }

  lemma TailIsNoBlock(mem: map<nat, Header>, base: nat, f: seq<nat>, live: set<nat>, own: map<nat, nat>, i: nat,
                      nunits: nat)
    requires Ring(mem, base, f) && Owned(mem, base, f, live, own) && 0 < i < |f| && 0 < nunits < mem[f[i]].size
    ensures var q := f[i] + mem[f[i]].size - nunits;
      q in mem && q in own && own[q] == f[i] && !IsBlock(f, live, q) && q !in f
  {
    var q := f[i] + mem[f[i]].size - nunits;
    SpacedDistinct(mem, f);
    assert IsBlock(f, live, f[i]);
    assert q in own && own[q] == f[i];
    assert Owner(f, live, mem, q, own[q]);
    forall b: nat | IsBlock(f, live, b) ensures b in mem && 0 < mem[b].size {
      BlockHasUnits(mem, f, live, b);
    }
  }

  lemma BlockHasUnits(mem: map<nat, Header>, f: seq<nat>, live: set<nat>, b: nat)
    requires Headers(mem, f) && LiveOk(mem, f, live) && IsBlock(f, live, b)
    ensures b in mem && 0 < mem[b].size
  {
    if b !in live {
      var x :| 0 <= x < |f| && f[x] == b;
    }
  }

  lemma SplitUnits(mem: map<nat, Header>, base: nat, f: seq<nat>, live: set<nat>, own: map<nat, nat>, i: nat,
                   nunits: nat, q: nat, mem': map<nat, Header>)
    requires UnitsOk(mem, base, f, live, own) && RangesOk(mem, f, live, own) && Splits(mem, f, i, nunits, q, mem')
    requires IsBlock(f, live, f[i]) && !IsBlock(f, live, q)
    ensures UnitsOk(mem', base, f, live + {q}, Assign(own, q, nunits))
  {
    var own' := Assign(own, q, nunits);
    forall u | u in own' ensures base < u && Owner(f, live + {q}, mem', u, own'[u]) {
      assert Owner(f, live, mem, u, own[u]);
      assert f[i] <= u < f[i] + mem[f[i]].size ==> own[u] == f[i];
    }
  }

  lemma SplitOwned(mem: map<nat, Header>, base: nat, f: seq<nat>, live: set<nat>, own: map<nat, nat>, i: nat,
                   nunits: nat, q: nat, mem': map<nat, Header>)
    requires Headers(mem, f) && Distinct(f) && Owned(mem, base, f, live, own) && Splits(mem, f, i, nunits, q, mem')
    requires !IsBlock(f, live, q) && q !in f
    ensures Owned(mem', base, f, live + {q}, Assign(own, q, nunits))
  {
    assert IsBlock(f, live, f[i]);
    SplitLive(mem, f, live, i, nunits, q, mem');
    SplitUnits(mem, base, f, live, own, i, nunits, q, mem');
    forall b: nat, u: nat | IsBlock(f, live + {q}, b) && b in mem' && b <= u < b + mem'[b].size
      ensures u in Assign(own, q, nunits) && Assign(own, q, nunits)[u] == b
    {
      SplitRange(mem, f, live, own, i, nunits, q, mem', b, u);
    }
  }

  lemma SplitLive(mem: map<nat, Header>, f: seq<nat>, live: set<nat>, i: nat, nunits: nat, q: nat, mem': map<nat,
                  Header>)
    requires LiveOk(mem, f, live) && Splits(mem, f, i, nunits, q, mem') && !IsBlock(f, live, q) && q !in f
    ensures LiveOk(mem', f, live + {q})
  {
    forall b | b in live ensures b in mem' && mem'[b] == mem[b] {
      assert b !in f && b != q;
    }
  }

  lemma SplitRange(mem: map<nat, Header>, f: seq<nat>, live: set<nat>, own: map<nat, nat>, i: nat, nunits: nat, q: nat,
                   mem': map<nat, Header>, b: nat, u: nat)
    requires RangesOk(mem, f, live, own) && Splits(mem, f, i, nunits, q, mem') && IsBlock(f, live, f[i])
    requires !IsBlock(f, live, q)
    requires IsBlock(f, live + {q}, b) && b in mem' && b <= u < b + mem'[b].size
    ensures u in own && Assign(own, q, nunits)[u] == b
  {
    assert q <= u < q + nunits ==> own[u] == f[i];
    assert b != q ==> IsBlock(f, live, b);
  }

  /** sbrk() has given nu new units at hp: a live block until free() takes it. */
  ghost predicate Grows(mem: map<nat, Header>, base: nat, own: map<nat, nat>, hp: nat, nu: nat, mem': map<nat, Header>,
                        own': map<nat, nat>) {
    && base < hp && 0 < nu
    && (forall u: nat :: hp <= u < hp + nu ==> u !in own && u in mem' && u in own' && own'[u] == hp)
    && (forall u :: u in own ==> u in own' && own'[u] == own[u])
    && (forall u :: u in own' ==> u in own || hp <= u < hp + nu)
    && hp in mem' && mem'[hp].size == nu
    && (forall u :: u in mem && !(hp <= u < hp + nu) ==> u in mem' && mem'[u] == mem[u])
  }

  lemma GrowKeepsBlocks(mem: map<nat, Header>, base: nat, f: seq<nat>, live: set<nat>, own: map<nat, nat>, hp: nat,
                        nu: nat,
                        mem': map<nat, Header>, own': map<nat, nat>, b: nat)
    requires Headers(mem, f) && Owned(mem, base, f, live, own) && Grows(mem, base, own, hp, nu, mem', own')
    requires IsBlock(f, live, b)
    ensures b in mem && b in mem' && mem'[b] == mem[b] && !(hp <= b < hp + nu)
  {
    BlockHasUnits(mem, f, live, b);
    assert b in own;
  }

  lemma GrowRing(mem: map<nat, Header>, base: nat, f: seq<nat>, live: set<nat>, own: map<nat, nat>, hp: nat, nu: nat,
                 mem': map<nat, Header>, own': map<nat, nat>)
    requires Ring(mem, base, f) && Owned(mem, base, f, live, own) && Grows(mem, base, own, hp, nu, mem', own')
    ensures Ring(mem', base, f) && hp !in f
  {
    SpacedDistinct(mem, f);
    forall x | 0 <= x < |f| ensures f[x] in mem' && mem'[f[x]] == mem[f[x]] && f[x] != hp {
      if 0 < x {
        GrowKeepsBlocks(mem, base, f, live, own, hp, nu, mem', own', f[x]);
      }
    }
  }

  lemma GrowOwned(mem: map<nat, Header>, base: nat, f: seq<nat>, live: set<nat>, own: map<nat, nat>, hp: nat, nu: nat,
                  mem': map<nat, Header>, own': map<nat, nat>)
    requires Headers(mem, f) && Owned(mem, base, f, live, own) && Grows(mem, base, own, hp, nu, mem', own') && hp !in f
    ensures Owned(mem', base, f, live + {hp}, own') && hp !in live
  {
    GrowLive(mem, base, f, live, own, hp, nu, mem', own');
    GrowUnits(mem, base, f, live, own, hp, nu, mem', own');
    forall b: nat, u: nat | IsBlock(f, live + {hp}, b) && b in mem' && b <= u < b + mem'[b].size
      ensures u in own' && own'[u] == b
    {
      GrowRange(mem, base, f, live, own, hp, nu, mem', own', b, u);
    }
  }

  lemma GrowLive(mem: map<nat, Header>, base: nat, f: seq<nat>, live: set<nat>, own: map<nat, nat>, hp: nat, nu: nat,
                 mem': map<nat, Header>, own': map<nat, nat>)
    requires Headers(mem, f) && Owned(mem, base, f, live, own) && Grows(mem, base, own, hp, nu, mem', own') && hp !in f
    ensures LiveOk(mem', f, live + {hp}) && hp !in live
  {
    forall b: nat | b in live ensures b in mem' && mem'[b] == mem[b] && b != hp {
      GrowKeepsBlocks(mem, base, f, live, own, hp, nu, mem', own', b);
    }
  }

  lemma GrowUnits(mem: map<nat, Header>, base: nat, f: seq<nat>, live: set<nat>, own: map<nat, nat>, hp: nat, nu: nat,
                  mem': map<nat, Header>, own': map<nat, nat>)
    requires Headers(mem, f) && Owned(mem, base, f, live, own) && Grows(mem, base, own, hp, nu, mem', own')
    ensures UnitsOk(mem', base, f, live + {hp}, own')
  {
    forall u | u in own' ensures base < u && Owner(f, live + {hp}, mem', u, own'[u]) {
      if u in own {
        assert Owner(f, live, mem, u, own[u]);
        GrowKeepsBlocks(mem, base, f, live, own, hp, nu, mem', own', own[u]);
      }
    }
  }

  lemma GrowRange(mem: map<nat, Header>, base: nat, f: seq<nat>, live: set<nat>, own: map<nat, nat>, hp: nat, nu: nat,
                  mem': map<nat, Header>, own': map<nat, nat>, b: nat, u: nat)
    requires Headers(mem, f) && Owned(mem, base, f, live, own) && Grows(mem, base, own, hp, nu, mem', own')
    requires IsBlock(f, live + {hp}, b) && b in mem' && b <= u < b + mem'[b].size
    ensures u in own' && own'[u] == b
  {
    if b != hp {
      assert IsBlock(f, live, b);
      GrowKeepsBlocks(mem, base, f, live, own, hp, nu, mem', own', b);
      assert u in own && own[u] == b;
    }
  }
}
