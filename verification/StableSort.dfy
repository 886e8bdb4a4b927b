/** The stable sort of the standard library, as a specification and as an in-place insertion sort. */
module StableSort {
  import opened Sequences

  ghost predicate TotalPreorder<T(!new)>(le: (T, T) -> bool)
  {
    && (forall x, y :: le(x, y) || le(y, x))
    && (forall x, y, z :: le(x, y) && le(y, z) ==> le(x, z))
  }

  /** `x` goes behind everything that is not greater. */
  function Insert<T>(s: seq<T>, x: T, le: (T, T) -> bool): (r: seq<T>)
    ensures |r| == |s| + 1
    decreases |s|
  {
    if s == [] || le(s[|s| - 1], x) then s + [x] else Insert(s[..|s| - 1], x, le) + [s[|s| - 1]]
  }

  function Sort<T>(s: seq<T>, le: (T, T) -> bool): (r: seq<T>)
    ensures |r| == |s|
    decreases |s|
  {
    if s == [] then [] else Insert(Sort(s[..|s| - 1], le), s[|s| - 1], le)
  }

  /** In order by `le`, and where `le` does not tell, by `tie`. */
  ghost predicate Ordered<T>(s: seq<T>, le: (T, T) -> bool, tie: (T, T) -> bool)
  {
    forall i, j :: 0 <= i < j < |s| ==> le(s[i], s[j]) && (le(s[j], s[i]) ==> tie(s[i], s[j]))
  }

  /** Adjacent in `tie` wherever `le` does not tell, in whatever order otherwise. */
  ghost predicate TiesOrdered<T>(s: seq<T>, le: (T, T) -> bool, tie: (T, T) -> bool)
  {
    forall i, j :: 0 <= i < j < |s| ==> le(s[i], s[j]) && le(s[j], s[i]) ==> tie(s[i], s[j])
  }

  lemma {:induction false} InsertIsPermutation<T>(s: seq<T>, x: T, le: (T, T) -> bool)
    ensures multiset(Insert(s, x, le)) == multiset(s) + multiset{x}
    decreases |s|
  {
    if s != [] && !le(s[|s| - 1], x) {
      InsertIsPermutation(s[..|s| - 1], x, le);
      assert s == s[..|s| - 1] + [s[|s| - 1]];
    }
  }

  lemma {:induction false} SortIsPermutation<T>(s: seq<T>, le: (T, T) -> bool)
    ensures multiset(Sort(s, le)) == multiset(s)
    decreases |s|
  {
    if s != [] {
      SortIsPermutation(s[..|s| - 1], le);
      InsertIsPermutation(Sort(s[..|s| - 1], le), s[|s| - 1], le);
      assert s == s[..|s| - 1] + [s[|s| - 1]];
    }
  }

  lemma {:induction false} InsertKeepsOrder<T(!new)>(s: seq<T>, x: T, le: (T, T) -> bool, tie: (T, T) -> bool)
    requires TotalPreorder(le) && Ordered(s, le, tie)
    requires forall i :: 0 <= i < |s| && le(s[i], x) && le(x, s[i]) ==> tie(s[i], x)
    ensures Ordered(Insert(s, x, le), le, tie)
    decreases |s|
  {
    if s != [] && !le(s[|s| - 1], x) {
      var init, last := s[..|s| - 1], s[|s| - 1];
      InsertKeepsOrder(init, x, le, tie);
      InsertIsPermutation(init, x, le);
      var r := Insert(init, x, le);
      forall i | 0 <= i < |r| ensures le(r[i], last) && (le(last, r[i]) ==> tie(r[i], last)) {
        assert r[i] in multiset(r);
        if r[i] in init {
          var j :| 0 <= j < |init| && init[j] == r[i];
          assert s[j] == r[i];
        }
      }
    }
  }

  /** A sort by `le` of something already ordered on ties is the lexicographic order: two stable sorts, the second
      by the more important key, are one. */
  lemma {:induction false} SortIsLexicographic<T(!new)>(s: seq<T>, le: (T, T) -> bool, tie: (T, T) -> bool)
    requires TotalPreorder(le) && TiesOrdered(s, le, tie)
    ensures Ordered(Sort(s, le), le, tie)
    decreases |s|
  {
    if s != [] {
      var init, x := s[..|s| - 1], s[|s| - 1];
      SortIsLexicographic(init, le, tie);
      SortIsPermutation(init, le);
      var r := Sort(init, le);
      forall i | 0 <= i < |r| && le(r[i], x) && le(x, r[i]) ensures tie(r[i], x) {
        assert r[i] in multiset(init);
        var j :| 0 <= j < |init| && init[j] == r[i];
        assert s[j] == r[i];
      }
      InsertKeepsOrder(r, x, le, tie);
    }
  }

  /** Elements no test of `le` can tell from `x`. */
  function TiedWith<T>(x: T, le: (T, T) -> bool): T -> bool { (y: T) => le(x, y) && le(y, x) }

  lemma {:induction false} InsertIsStable<T(!new)>(s: seq<T>, x: T, y: T, le: (T, T) -> bool)
    requires TotalPreorder(le)
    ensures Filter(Insert(s, x, le), TiedWith(y, le)) == Filter(s + [x], TiedWith(y, le))
    decreases |s|
  {
    var p := TiedWith(y, le);
    if s != [] && !le(s[|s| - 1], x) {
      var init, last := s[..|s| - 1], s[|s| - 1];
      InsertIsStable(init, x, y, le);
      FilterSnoc(Insert(init, x, le), last, p);
      FilterSnoc(init, x, p);
      FilterSnoc(s, x, p);
      assert s == init + [last];
      FilterSnoc(init, last, p);
    }
  }

  /** Elements that tie keep their order. */
  lemma {:induction false} SortIsStable<T(!new)>(s: seq<T>, y: T, le: (T, T) -> bool)
    requires TotalPreorder(le)
    ensures Filter(Sort(s, le), TiedWith(y, le)) == Filter(s, TiedWith(y, le))
    decreases |s|
  {
    if s != [] {
      var init, x, p := s[..|s| - 1], s[|s| - 1], TiedWith(y, le);
      assert Sort(s, le) == Insert(Sort(init, le), x, le);
      hide Sort, Insert, Filter;
      SortIsStable(init, y, le);
      InsertIsStable(Sort(init, le), x, y, le);
      FilterSnoc(Sort(init, le), x, p);
      assert s == init + [x];
      FilterSnoc(init, x, p);
    }
  }

  /** Sorting commutes with a mapping that carries the order along. */
  lemma {:induction false} SortMap<T, U>(s: seq<T>, f: T -> U, le: (T, T) -> bool, le': (U, U) -> bool)
    requires forall i, j :: 0 <= i < |s| && 0 <= j < |s| ==> (le(s[i], s[j]) <==> le'(f(s[i]), f(s[j])))
    ensures Sort(Map(s, f), le') == Map(Sort(s, le), f)
    decreases |s|
  {
    if s != [] {
      var init, x := s[..|s| - 1], s[|s| - 1];
      SortMap(init, f, le, le');
      assert Map(s, f)[..|s| - 1] == Map(init, f);
      SortIsPermutation(init, le);
      var r := Sort(init, le);
      forall i | 0 <= i < |r| ensures le(r[i], x) <==> le'(f(r[i]), f(x)) {
        assert r[i] in multiset(init);
        var j :| 0 <= j < |init| && init[j] == r[i];
        assert s[j] == r[i];
      }
      InsertMap(r, x, f, le, le');
    }
  }

  lemma {:induction false} InsertMap<T, U>(s: seq<T>, x: T, f: T -> U, le: (T, T) -> bool, le': (U, U) -> bool)
    requires forall i :: 0 <= i < |s| ==> (le(s[i], x) <==> le'(f(s[i]), f(x)))
    ensures Insert(Map(s, f), f(x), le') == Map(Insert(s, x, le), f)
    decreases |s|
  {
    if s != [] {
      InsertMap(s[..|s| - 1], x, f, le, le');
      assert Map(s, f)[..|s| - 1] == Map(s[..|s| - 1], f);
    }
  }

  /** Two orderings of the same naturals sort to the same sequence. */
  lemma SortIsCanonical(a: seq<nat>, b: seq<nat>, le: (nat, nat) -> bool)
    requires multiset(a) == multiset(b) && forall x, y :: le(x, y) <==> x <= y
    ensures Sort(a, le) == Sort(b, le)
  {
    hide Sort;
    SortIsPermutation(a, le);
    SortIsPermutation(b, le);
    SortIsLexicographic(a, le, (x, y) => true);
    SortIsLexicographic(b, le, (x, y) => true);
    SortedIsUnique(Sort(a, le), Sort(b, le));
  }

  lemma {:induction false} SortedIsUnique(a: seq<nat>, b: seq<nat>)
    requires multiset(a) == multiset(b)
    requires forall i, j :: 0 <= i < j < |a| ==> a[i] <= a[j]
    requires forall i, j :: 0 <= i < j < |b| ==> b[i] <= b[j]
    ensures a == b
    decreases |a|
  {
    assert |multiset(a)| == |a| && |multiset(b)| == |b|;
    if a != [] {
      LastIsLargest(a, b);
      LastIsLargest(b, a);
      DropLast(a);
      DropLast(b);
      SortedIsUnique(a[..|a| - 1], b[..|b| - 1]);
    }
  }

  lemma LastIsLargest(a: seq<nat>, b: seq<nat>)
    requires a != [] && b != [] && multiset(a) == multiset(b)
    requires forall i, j :: 0 <= i < j < |a| ==> a[i] <= a[j]
    ensures b[|b| - 1] <= a[|a| - 1]
  {
    assert b[|b| - 1] in multiset(a);
    var j :| 0 <= j < |a| && a[j] == b[|b| - 1];
  }

  lemma DropLast(a: seq<nat>)
    requires a != []
    ensures multiset(a[..|a| - 1]) == multiset(a) - multiset{a[|a| - 1]}
  {
    assert a == a[..|a| - 1] + [a[|a| - 1]];
  }

  // ---- in place ----

  /** Sort a slice in place, stably. */
  method SortInPlace<T>(a: array<T>, le: (T, T) -> bool)
    modifies a
    ensures a[..] == Sort(old(a[..]), le)
  {
    hide Insert;
    ghost var was := a[..];
    for n := 0 to a.Length
      invariant a[..n] == Sort(was[..n], le) && a[n..] == was[n..]
    {
      assert a[n] == a[n..][0] == was[n];
      assert a[n + 1..] == a[n..][1..];
      InsertInPlace(a, n, le);
      SortStep(was, n, le);
    }
    assert was[..a.Length] == was && a[..a.Length] == a[..];
  }

  lemma SortStep<T>(was: seq<T>, n: nat, le: (T, T) -> bool)
    requires n < |was|
    ensures Sort(was[..n + 1], le) == Insert(Sort(was[..n], le), was[n], le)
  {
    assert was[..n + 1][..n] == was[..n];
  }

  /** Move the element at `n` back among the `n` sorted ones before it. */
  method InsertInPlace<T>(a: array<T>, n: nat, le: (T, T) -> bool)
    requires n < a.Length
    modifies a
    ensures a[..n + 1] == Insert(old(a[..n]), old(a[n]), le)
    ensures a[n + 1..] == old(a[n + 1..])
  {
    var x := a[n];
    ghost var sorted, whole := a[..n], Insert(a[..n], x, le);
    var k := n;
    assert sorted[..n] == sorted && sorted[n..] == [];
    while k > 0 && !le(a[k - 1], x)
      invariant 0 <= k <= n
      invariant a[..k] == sorted[..k] && a[k + 1..n + 1] == sorted[k..] && a[n + 1..] == old(a[n + 1..])
      invariant whole == Insert(sorted[..k], x, le) + sorted[k..]
    {
      assert a[k - 1] == a[..k][k - 1] == sorted[k - 1];
      InsertStep(sorted, k, x, le, whole);
      ghost var tail := a[k + 1..n + 1];
      a[k] := a[k - 1];
      assert a[k..n + 1] == [sorted[k - 1]] + tail;
      assert sorted[k - 1..] == [sorted[k - 1]] + sorted[k..];
      assert a[..k - 1] == sorted[..k][..k - 1];
      k := k - 1;
    }
    if k > 0 { assert a[k - 1] == a[..k][k - 1] == sorted[k - 1]; }
    assert Insert(sorted[..k], x, le) == sorted[..k] + [x];
    a[k] := x;
    assert a[..n + 1] == a[..k] + [x] + a[k + 1..n + 1];
  }

  lemma InsertStep<T>(sorted: seq<T>, k: nat, x: T, le: (T, T) -> bool, whole: seq<T>)
    requires 0 < k <= |sorted| && !le(sorted[k - 1], x)
    requires whole == Insert(sorted[..k], x, le) + sorted[k..]
    ensures whole == Insert(sorted[..k - 1], x, le) + sorted[k - 1..]
  {
    var before, y := sorted[..k - 1], sorted[k - 1];
    assert sorted[..k][..k - 1] == before;
    assert Insert(sorted[..k], x, le) == Insert(before, x, le) + [y];
    hide Insert;
    assert sorted[k - 1..] == [y] + sorted[k..];
  }
}
