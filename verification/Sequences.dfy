/** Mapping and filtering sequences, and what permutations leave alone. */
module Sequences {

  lemma Assoc<T>(a: seq<T>, b: seq<T>, c: seq<T>)
    ensures (a + b) + c == a + (b + c)
  {
  }

  function Map<T, U>(s: seq<T>, f: T -> U): (r: seq<U>)
    ensures |r| == |s| && forall i :: 0 <= i < |s| ==> r[i] == f(s[i])
  {
    seq(|s|, i requires 0 <= i < |s| => f(s[i]))
  }

  /** The elements `p` selects, in order. */
  function Filter<T>(s: seq<T>, p: T -> bool): (r: seq<T>)
    decreases |s|
  {
    if s == [] then []
    else if p(s[|s| - 1]) then Filter(s[..|s| - 1], p) + [s[|s| - 1]]
    else Filter(s[..|s| - 1], p)
  }

  lemma {:induction false} FilterMembers<T>(s: seq<T>, p: T -> bool, x: T)
    ensures x in Filter(s, p) <==> x in s && p(x)
    decreases |s|
  {
    if s != [] {
      FilterMembers(s[..|s| - 1], p, x);
      assert s == s[..|s| - 1] + [s[|s| - 1]];
    }
  }

  lemma FilterSnoc<T>(s: seq<T>, x: T, p: T -> bool)
    ensures Filter(s + [x], p) == if p(x) then Filter(s, p) + [x] else Filter(s, p)
  {
    assert (s + [x])[..|s|] == s;
  }

  lemma FilterEmpty<T>(p: T -> bool)
    ensures Filter([], p) == []
  {
  }

  lemma {:induction false} FilterAppend<T>(a: seq<T>, b: seq<T>, p: T -> bool)
    ensures Filter(a + b, p) == Filter(a, p) + Filter(b, p)
    decreases |b|
  {
    FilterEmpty(p);
    hide Filter;
    if b == [] {
      assert a + b == a;
      assert Filter(a, p) + [] == Filter(a, p);
    } else {
      var init, x := b[..|b| - 1], b[|b| - 1];
      FilterAppend(a, init, p);
      FilterSnoc(a + init, x, p);
      FilterSnoc(init, x, p);
      assert Filter(a, p) + (Filter(init, p) + [x]) == (Filter(a, p) + Filter(init, p)) + [x];
      assert b == init + [x];
      assert a + b == (a + init) + [x];
    }
  }


  lemma {:induction false} FilterKeepsOrder<T>(s: seq<T>, p: T -> bool, le: (T, T) -> bool)
    requires forall i, j :: 0 <= i < j < |s| ==> p(s[i]) && p(s[j]) ==> le(s[i], s[j])
    ensures var r := Filter(s, p); forall i, j :: 0 <= i < j < |r| ==> le(r[i], r[j])
    decreases |s|
  {
    if s != [] {
      var init, x := s[..|s| - 1], s[|s| - 1];
      FilterKeepsOrder(init, p, le);
      if p(x) {
        var r := Filter(init, p);
        forall i | 0 <= i < |r| ensures le(r[i], x) {
          FilterMembers(init, p, r[i]);
          var j :| 0 <= j < |init| && init[j] == r[i];
          assert s[j] == r[i] && p(s[j]);
        }
        assert Filter(s, p) == r + [x];
      }
    }
  }

  lemma {:induction false} FilterMap<T, U>(s: seq<T>, f: T -> U, p: U -> bool, q: T -> bool)
    requires forall i :: 0 <= i < |s| ==> (q(s[i]) <==> p(f(s[i])))
    ensures Filter(Map(s, f), p) == Map(Filter(s, q), f)
    decreases |s|
  {
    if s != [] {
      var init, x := s[..|s| - 1], s[|s| - 1];
      FilterMap(init, f, p, q);
      assert Map(s, f)[..|s| - 1] == Map(init, f);
    }
  }

  /** Filtering twice keeps what both tests pass. */
  lemma {:induction false} FilterFilter<T>(s: seq<T>, p: T -> bool, q: T -> bool, both: T -> bool)
    requires forall i :: 0 <= i < |s| ==> (both(s[i]) <==> p(s[i]) && q(s[i]))
    ensures Filter(Filter(s, p), q) == Filter(s, both)
    decreases |s|
  {
    if s != [] {
      var init, x := s[..|s| - 1], s[|s| - 1];
      FilterFilter(init, p, q, both);
      if p(x) { FilterSnoc(Filter(init, p), x, q); }
    }
  }

  lemma {:induction false} FilterNone<T>(s: seq<T>, p: T -> bool)
    requires forall i :: 0 <= i < |s| ==> !p(s[i])
    ensures Filter(s, p) == []
    decreases |s|
  {
    if s != [] { FilterNone(s[..|s| - 1], p); }
  }

  /** Filtering keeps the length only where everything passes. */
  lemma {:induction false} FilterLoses<T>(s: seq<T>, p: T -> bool)
    ensures |Filter(s, p)| <= |s|
    ensures |Filter(s, p)| == |s| ==> forall i :: 0 <= i < |s| ==> p(s[i])
    decreases |s|
  {
    if s != [] {
      FilterLoses(s[..|s| - 1], p);
      FilterSnoc(s[..|s| - 1], s[|s| - 1], p);
      assert s == s[..|s| - 1] + [s[|s| - 1]];
    }
  }

  lemma {:induction false} FilterAll<T>(s: seq<T>, p: T -> bool)
    requires forall i :: 0 <= i < |s| ==> p(s[i])
    ensures Filter(s, p) == s
    decreases |s|
  {
    if s != [] {
      FilterAll(s[..|s| - 1], p);
      assert s == s[..|s| - 1] + [s[|s| - 1]];
    }
  }

  lemma {:induction false} SameFilter<T>(s: seq<T>, p: T -> bool, q: T -> bool)
    requires forall x :: p(x) == q(x)
    ensures Filter(s, p) == Filter(s, q)
    decreases |s|
  {
    if s != [] { SameFilter(s[..|s| - 1], p, q); }
  }

  // ---- permutations ----

  /** Each element's contribution, one after the other. */
  function Flat<T, U>(s: seq<T>, g: T -> seq<U>): seq<U>
    decreases |s|
  {
    if s == [] then [] else Flat(s[..|s| - 1], g) + g(s[|s| - 1])
  }

  lemma {:induction false} FlatAppend<T, U>(a: seq<T>, b: seq<T>, g: T -> seq<U>)
    ensures Flat(a + b, g) == Flat(a, g) + Flat(b, g)
    decreases |b|
  {
    if b == [] {
      assert a + b == a;
      assert Flat(a, g) + [] == Flat(a, g);
    } else {
      FlatAppend(a, b[..|b| - 1], g);
      assert (a + b)[..|a + b| - 1] == a + b[..|b| - 1];
      Assoc(Flat(a, g), Flat(b[..|b| - 1], g), g(b[|b| - 1]));
    }
  }

  lemma {:induction false} FlatNone<T, U>(s: seq<T>, g: T -> seq<U>)
    requires forall i :: 0 <= i < |s| ==> g(s[i]) == []
    ensures Flat(s, g) == []
    decreases |s|
  {
    if s != [] { FlatNone(s[..|s| - 1], g); }
  }

  lemma {:induction false} FlatForAll<T, U>(s: seq<T>, g: T -> seq<U>, p: U -> bool)
    requires forall x, y :: y in g(x) ==> p(y)
    ensures forall y :: y in Flat(s, g) ==> p(y)
  {
    if s != [] { FlatForAll(s[..|s| - 1], g, p); }
  }

  lemma {:induction false} FlatWithout<T, U>(s: seq<T>, g: T -> seq<U>, j: nat)
    requires j < |s|
    ensures multiset(Flat(s, g)) == multiset(Flat(s[..j] + s[j + 1..], g)) + multiset(g(s[j]))
    decreases |s|
  {
    var init, x := s[..|s| - 1], s[|s| - 1];
    if j == |s| - 1 {
      assert s[..j] + s[j + 1..] == init;
    } else {
      FlatWithout(init, g, j);
      var rest := s[..j] + s[j + 1..];
      assert rest[..|rest| - 1] == init[..j] + init[j + 1..] && rest[|rest| - 1] == x;
    }
  }

  /** What all elements contribute together does not depend on their order. */
  lemma {:induction false} FlatPermutes<T, U>(s: seq<T>, t: seq<T>, g: T -> seq<U>)
    requires multiset(s) == multiset(t)
    ensures multiset(Flat(s, g)) == multiset(Flat(t, g))
    decreases |s|
  {
    assert |multiset(s)| == |s| && |multiset(t)| == |t|;
    if s != [] {
      var init, x := s[..|s| - 1], s[|s| - 1];
      assert s == init + [x];
      assert x in multiset(t);
      var j :| 0 <= j < |t| && t[j] == x;
      var rest := t[..j] + t[j + 1..];
      assert t == t[..j] + [x] + t[j + 1..];
      assert multiset(init) == multiset(s) - multiset{x} == multiset(t) - multiset{x} == multiset(rest);
      FlatPermutes(init, rest, g);
      FlatWithout(t, g, j);
    }
  }

  lemma {:induction false} MapIsFlat<T, U>(s: seq<T>, f: T -> U, g: T -> seq<U>)
    requires forall i :: 0 <= i < |s| ==> g(s[i]) == [f(s[i])]
    ensures Flat(s, g) == Map(s, f)
    decreases |s|
  {
    if s != [] { MapIsFlat(s[..|s| - 1], f, g); }
  }

  lemma MapPermutes<T, U>(s: seq<T>, t: seq<T>, f: T -> U)
    requires multiset(s) == multiset(t)
    ensures multiset(Map(s, f)) == multiset(Map(t, f))
  {
    var g := (x: T) => [f(x)];
    FlatPermutes(s, t, g);
    MapIsFlat(s, f, g);
    MapIsFlat(t, f, g);
  }

  lemma {:induction false} FlatHas<T, U>(s: seq<T>, g: T -> seq<U>, j: nat, x: U)
    requires j < |s| && x in g(s[j])
    ensures x in Flat(s, g)
    decreases |s|
  {
    if j < |s| - 1 { FlatHas(s[..|s| - 1], g, j, x); }
  }

  lemma {:induction false} FilterIsFlat<T>(s: seq<T>, p: T -> bool, g: T -> seq<T>)
    requires forall x :: g(x) == if p(x) then [x] else []
    ensures Filter(s, p) == Flat(s, g)
    decreases |s|
  {
    if s != [] {
      FilterIsFlat(s[..|s| - 1], p, g);
      FilterSnoc(s[..|s| - 1], s[|s| - 1], p);
      assert s == s[..|s| - 1] + [s[|s| - 1]];
    }
  }

  lemma FilterPermutes<T>(s: seq<T>, t: seq<T>, p: T -> bool)
    requires multiset(s) == multiset(t)
    ensures |Filter(s, p)| == |Filter(t, p)|
  {
    var g := (x: T) => if p(x) then [x] else [];
    FilterIsFlat(s, p, g);
    FilterIsFlat(t, p, g);
    hide Filter;
    FlatPermutes(s, t, g);
    assert |Flat(s, g)| == |multiset(Flat(s, g))| == |multiset(Flat(t, g))| == |Flat(t, g)|;
  }

  /** What passes is among the first `k` elements, or from element `k` on. */
  lemma FilterFront<T>(s: seq<T>, p: T -> bool, k: nat)
    requires k <= |s| && forall i :: k <= i < |s| ==> !p(s[i])
    ensures |Filter(s, p)| <= k
  {
    assert s == s[..k] + s[k..];
    FilterAppend(s[..k], s[k..], p);
    FilterNone(s[k..], p);
    FilterLoses(s[..k], p);
    hide Filter;
  }

  lemma FilterBack<T>(s: seq<T>, p: T -> bool, k: nat)
    requires k <= |s| && forall i :: 0 <= i < k ==> !p(s[i])
    ensures |Filter(s, p)| <= |s| - k
  {
    assert s == s[..k] + s[k..];
    FilterAppend(s[..k], s[k..], p);
    FilterNone(s[..k], p);
    FilterLoses(s[k..], p);
    hide Filter;
  }
}
