/** Totals over maps, and walks that are held at zero. */
module Sums {
  const U32_MAX: nat := 0xFFFF_FFFF
  const U64_MAX: nat := 0xFFFF_FFFF_FFFF_FFFF
  const I64_MAX: nat := 0x7FFF_FFFF_FFFF_FFFF

  function Min(a: int, b: int): int { if a <= b then a else b }

  function Max(a: int, b: int): int { if a >= b then a else b }

  /** `saturating_add` on naturals with the given largest value. */
  function SatAdd(a: nat, b: nat, cap: nat): nat { Min(a + b, cap) }

  // ---- totals over maps ----

  ghost function Total<K, V>(m: map<K, V>, f: V -> int): int
    decreases |m|
  {
    if m == map[] then 0 else
    var k :| k in m;
    f(m[k]) + Total(m - {k}, f)
  }

  lemma {:induction false} TotalSplit<K, V>(m: map<K, V>, k: K, f: V -> int)
    requires k in m
    ensures Total(m, f) == f(m[k]) + Total(m - {k}, f)
    decreases |m|
  {
    var j :| j in m && Total(m, f) == f(m[j]) + Total(m - {j}, f);
    if j != k {
      TotalSplit(m - {j}, k, f);
      TotalSplit(m - {k}, j, f);
      assert m - {j} - {k} == m - {k} - {j};
    }
  }

  lemma TotalSet<K, V>(m: map<K, V>, k: K, v: V, f: V -> int)
    ensures Total(m[k := v], f) == Total(m, f) + f(v) - (if k in m then f(m[k]) else 0)
  {
    TotalSplit(m[k := v], k, f);
    assert m[k := v] - {k} == m - {k};
    if k in m { TotalSplit(m, k, f); } else { assert m - {k} == m; }
  }

  lemma {:induction false} TotalNonneg<K, V>(m: map<K, V>, f: V -> int)
    requires forall k :: k in m ==> f(m[k]) >= 0
    ensures Total(m, f) >= 0
    ensures forall k :: k in m ==> f(m[k]) <= Total(m, f)
    decreases |m|
  {
    forall k | k in m ensures f(m[k]) <= Total(m, f) && Total(m, f) >= 0 {
      TotalSplit(m, k, f);
      TotalNonneg(m - {k}, f);
    }
  }

  // ---- walks held at zero ----

  function SumNat(ns: seq<nat>): nat { if ns == [] then 0 else ns[0] + SumNat(ns[1..]) }

  function Sum(ds: seq<int>): int { if ds == [] then 0 else ds[0] + Sum(ds[1..]) }

  lemma {:induction false} SumSnoc(ds: seq<int>, d: int)
    ensures Sum(ds + [d]) == Sum(ds) + d
  {
    if ds == [] {
      assert ds + [d] == [d];
    } else {
      SumSnoc(ds[1..], d);
      assert (ds + [d])[1..] == ds[1..] + [d];
    }
  }

  /** A counter that starts at zero, moves by each step in turn, and never goes below zero. */
  function Walk(ds: seq<int>): nat
    decreases |ds|
  {
    if ds == [] then 0 else Max(0, Walk(ds[..|ds| - 1]) + ds[|ds| - 1])
  }

  /** `x` is the largest sum of any suffix of `ds`, the empty one included. */
  ghost predicate IsLargestSuffixSum(ds: seq<int>, x: int)
  {
    && (exists i :: 0 <= i <= |ds| && x == Sum(ds[i..]))
    && (forall i :: 0 <= i <= |ds| ==> Sum(ds[i..]) <= x)
  }

  lemma SuffixSnoc(ds: seq<int>, i: nat)
    requires i < |ds|
    ensures Sum(ds[i..]) == Sum(ds[..|ds| - 1][i..]) + ds[|ds| - 1]
  {
    assert ds[i..] == ds[..|ds| - 1][i..] + [ds[|ds| - 1]];
    SumSnoc(ds[..|ds| - 1][i..], ds[|ds| - 1]);
  }

  /** Where a walk held at zero stands is the largest sum of a suffix of its steps. */
  lemma {:induction false} WalkIsLargestSuffixSum(ds: seq<int>)
    ensures IsLargestSuffixSum(ds, Walk(ds))
    decreases |ds|
  {
    assert Sum(ds[|ds|..]) == 0;
    if ds != [] {
      var n, d := |ds| - 1, ds[|ds| - 1];
      var init := ds[..n];
      WalkIsLargestSuffixSum(init);
      hide Sum;
      forall i | 0 <= i <= |ds| ensures Sum(ds[i..]) <= Walk(ds) {
        if i <= n { SuffixSnoc(ds, i); }
      }
      var j :| 0 <= j <= n && Walk(init) == Sum(init[j..]);
      SuffixSnoc(ds, j);
      var best := if Walk(init) + d <= 0 then |ds| else j;
      assert Walk(ds) == Sum(ds[best..]);
    }
  }
}
