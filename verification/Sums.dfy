/** Totals over ledgers: maps whose missing entries read as zero, and sequences with some entries left out. */
module Sums {

  /** Size of the 256-bit words of the contracts. */
  const WORD: nat := 0x1_0000_0000_0000_0000_0000_0000_0000_0000_0000_0000_0000_0000_0000_0000_0000_0000

  function Get<K(==)>(m: map<K, nat>, k: K): nat {
    if k in m then m[k] else 0
  }

  ghost function Sum<K>(m: map<K, nat>): nat
    decreases |m|
  {
    if m == map[] then 0
    else
      var k :| k in m;
      m[k] + Sum(m - {k})
  }

  /** Any entry can be taken out first. */
  lemma {:induction false} SumWithout<K>(m: map<K, nat>, k: K)
    requires k in m
    ensures Sum(m) == m[k] + Sum(m - {k})
    decreases |m|
  {
    var j :| j in m && Sum(m) == m[j] + Sum(m - {j});
    if j != k {
      SumWithout(m - {j}, k);
      SumWithout(m - {k}, j);
      assert m - {j} - {k} == m - {k} - {j};
    }
  }

  /** Writing one entry changes the total by the difference. */
  lemma SumAfterSet<K>(m: map<K, nat>, k: K, v: nat)
    ensures Sum(m[k := v]) + Get(m, k) == Sum(m) + v
  {
    SumWithout(m[k := v], k);
    assert m[k := v] - {k} == m - {k};
    if k in m {
      SumWithout(m, k);
    } else {
      assert m - {k} == m;
    }
  }

  lemma GetAtMostSum<K>(m: map<K, nat>, k: K)
    ensures Get(m, k) <= Sum(m)
  {
    if k in m { SumWithout(m, k); }
  }

  /** The amounts that a log of events carries. */
  function Amounts<E>(events: seq<E>, amount: E -> nat): (xs: seq<nat>)
    ensures |xs| == |events|
    ensures forall i :: 0 <= i < |xs| ==> xs[i] == amount(events[i])
  {
    seq(|events|, i requires 0 <= i < |events| => amount(events[i]))
  }

  /** Total of the entries whose positions are not in `skip`. */
  ghost function SumExcept(xs: seq<nat>, skip: set<nat>): nat {
    if xs == [] then 0
    else
      var n := |xs| - 1;
      SumExcept(xs[..n], skip) + if n in skip then 0 else xs[n]
  }

  lemma SumExceptAppend(xs: seq<nat>, x: nat, skip: set<nat>)
    requires |xs| !in skip
    ensures SumExcept(xs + [x], skip) == SumExcept(xs, skip) + x
  {
    assert (xs + [x])[..|xs|] == xs;
  }

  /** Skipping one more position takes exactly its entry out of the total. */
  lemma {:induction false} SumExceptSkip(xs: seq<nat>, skip: set<nat>, i: nat)
    requires i < |xs| && i !in skip
    ensures SumExcept(xs, skip) == SumExcept(xs, skip + {i}) + xs[i]
  {
    var n := |xs| - 1;
    if i < n {
      SumExceptSkip(xs[..n], skip, i);
    } else {
      SumExceptBeyond(xs[..n], skip, i);
    }
  }

  lemma {:induction false} SumExceptBeyond(xs: seq<nat>, skip: set<nat>, i: nat)
    requires i >= |xs|
    ensures SumExcept(xs, skip + {i}) == SumExcept(xs, skip)
  {
    if xs != [] { SumExceptBeyond(xs[..|xs| - 1], skip, i); }
  }
}
