// Definitions shared by the models: an option type and sums over finite maps.

module Options {
  datatype Option<+T> = None | Some(value: T)
}

module Sums {

  /** The sum of the values of a finite map. */
  ghost function Sum(m: map<nat, nat>): nat
    decreases |m|
  {
    if m == map[] then 0
    else
      var k :| k in m;
      m[k] + Sum(m - {k})
  }

  /** Any key can be split off first, so the choice made by Sum does not matter. */
  lemma {:induction false} SumSplit(m: map<nat, nat>, k: nat)
    requires k in m
    ensures Sum(m) == m[k] + Sum(m - {k})
    decreases |m|
  {
    var c :| c in m && Sum(m) == m[c] + Sum(m - {c});
    if c != k {
      SumSplit(m - {c}, k);
      SumSplit(m - {k}, c);
      assert m - {c} - {k} == m - {k} - {c};
    }
  }

  lemma SumUpdate(m: map<nat, nat>, k: nat, v: nat)
    requires k in m
    ensures Sum(m[k := v]) + m[k] == Sum(m) + v
  {
    SumSplit(m, k);
    SumSplit(m[k := v], k);
    assert m[k := v] - {k} == m - {k};
  }

  /** A map that is at most `bound` on the keys in `s` and zero elsewhere. */
  ghost predicate AtMost(m: map<nat, nat>, s: set<nat>, bound: nat) {
    forall k :: k in m ==> m[k] <= (if k in s then bound else 0)
  }

  lemma SumAtMost(m: map<nat, nat>, s: set<nat>, bound: nat, n: nat)
    requires AtMost(m, s, bound) && n == |s|
    ensures Sum(m) <= bound * n
  {
    SumBelow(m, s, bound, bound * n);
  }

  lemma {:induction false} SumBelow(m: map<nat, nat>, s: set<nat>, bound: nat, total: nat)
    requires AtMost(m, s, bound) && total == bound * |s|
    ensures Sum(m) <= total
    decreases |m|
  {
    if k :| k in m {
      var rest := m - {k};
      SumSplit(m, k);
      if k in s {
        DropBoth(m, s, bound, k);
        TimesLess(bound, |s|);
        SumBelow(rest, s - {k}, bound, total - bound);
      } else {
        SumBelow(rest, s, bound, total);
      }
    }
  }

  lemma DropBoth(m: map<nat, nat>, s: set<nat>, bound: nat, k: nat)
    requires AtMost(m, s, bound) && k in m && k in s
    ensures AtMost(m - {k}, s - {k}, bound) && |s - {k}| == |s| - 1 && m[k] <= bound
  {
  }

  lemma TimesLess(a: nat, n: nat)
    requires 0 < n
    ensures a * (n - 1) + a == a * n
  {
  }
}
