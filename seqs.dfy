/** Generic list helpers matching JavaScript's `filter`, `length` after a
    filter, `reduce` with `+`, `slice` and index-based `filter`. */
module Seqs {

  /** `s.filter(p)`. */
  function Filter<T>(s: seq<T>, p: T -> bool): (r: seq<T>)
    ensures |r| <= |s|
    ensures forall x :: x in r ==> x in s && p(x)
    ensures forall x :: x in s && p(x) ==> x in r
  {
    if s == [] then [] else (if p(s[0]) then [s[0]] else []) + Filter(s[1..], p)
  }

  /** `s.filter(p).length`. */
  function Count<T>(s: seq<T>, p: T -> bool): nat {
    |Filter(s, p)|
  }

  /** `a` is an order-preserving sublist of `b`. */
  predicate IsSublist<T(==)>(a: seq<T>, b: seq<T>)
    decreases |b|
  {
    a == [] || (b != [] && ((a[0] == b[0] && IsSublist(a[1..], b[1..])) || IsSublist(a, b[1..])))
  }

  lemma {:induction false} FilterIsSublist<T>(s: seq<T>, p: T -> bool)
    ensures IsSublist(Filter(s, p), s)
  {
    if s != [] {
      FilterIsSublist(s[1..], p);
      if p(s[0]) {
        assert Filter(s, p) == [s[0]] + Filter(s[1..], p);
        assert Filter(s, p)[1..] == Filter(s[1..], p);
      } else {
        assert Filter(s, p) == Filter(s[1..], p);
      }
    }
  }

  lemma {:induction false} FilterAppend<T>(a: seq<T>, b: seq<T>, p: T -> bool)
    ensures Filter(a + b, p) == Filter(a, p) + Filter(b, p)
  {
    if a == [] {
      assert a + b == b;
    } else {
      var head := if p(a[0]) then [a[0]] else [];
      assert (a + b)[0] == a[0];
      assert (a + b)[1..] == a[1..] + b;
      FilterAppend(a[1..], b, p);
      calc {
        Filter(a + b, p);
        head + Filter(a[1..] + b, p);
        head + (Filter(a[1..], p) + Filter(b, p));
        (head + Filter(a[1..], p)) + Filter(b, p);
      }
    }
  }

  /** Filtering twice is filtering once by the conjunction. */
  lemma {:induction false} FilterFilter<T>(s: seq<T>, p: T -> bool, q: T -> bool, pq: T -> bool)
    requires forall x :: pq(x) == (p(x) && q(x))
    ensures Filter(Filter(s, p), q) == Filter(s, pq)
  {
    if s != [] {
      FilterFilter(s[1..], p, q, pq);
      var x := s[0];
      if p(x) {
        var fp := Filter(s, p);
        assert fp == [x] + Filter(s[1..], p);
        assert fp[0] == x && fp[1..] == Filter(s[1..], p);
        assert Filter(fp, q) == (if q(x) then [x] else []) + Filter(fp[1..], q);
      } else {
        assert Filter(s, p) == Filter(s[1..], p);
      }
    }
  }

  /** Filters by predicates that agree on every element are equal. */
  lemma {:induction false} FilterCongruent<T>(s: seq<T>, p: T -> bool, q: T -> bool)
    requires forall i :: 0 <= i < |s| ==> p(s[i]) == q(s[i])
    ensures Filter(s, p) == Filter(s, q)
  {
    if s != [] {
      FilterCongruent(s[1..], p, q);
    }
  }

  /** A filter by a predicate every element satisfies keeps everything. */
  lemma {:induction false} FilterAll<T>(s: seq<T>, p: T -> bool)
    requires forall i :: 0 <= i < |s| ==> p(s[i])
    ensures Filter(s, p) == s
  {
    if s != [] {
      FilterAll(s[1..], p);
    }
  }

  /** Counting by two disjoint predicates adds up to counting by their union. */
  lemma {:induction false} CountDisjointUnion<T>(s: seq<T>, p: T -> bool, q: T -> bool, pq: T -> bool)
    requires forall x :: !(p(x) && q(x))
    requires forall x :: pq(x) == (p(x) || q(x))
    ensures Count(s, p) + Count(s, q) == Count(s, pq)
  {
    if s != [] {
      CountDisjointUnion(s[1..], p, q, pq);
    }
  }

  /** A predicate and its negation partition the list. */
  lemma {:induction false} CountComplement<T>(s: seq<T>, p: T -> bool, notP: T -> bool)
    requires forall x :: notP(x) == !p(x)
    ensures Count(s, p) + Count(s, notP) == |s|
  {
    if s != [] {
      CountComplement(s[1..], p, notP);
    }
  }

  /** Counting is monotone in the predicate. */
  lemma {:induction false} CountMonotone<T>(s: seq<T>, p: T -> bool, q: T -> bool)
    requires forall x :: p(x) ==> q(x)
    ensures Count(s, p) <= Count(s, q)
  {
    if s != [] {
      CountMonotone(s[1..], p, q);
    }
  }

  /** `s.reduce((sum, x) => sum + f(x), 0)`. */
  function SumOf<T>(s: seq<T>, f: T -> int): int {
    if s == [] then 0 else f(s[0]) + SumOf(s[1..], f)
  }

  lemma {:induction false} SumAppend<T>(a: seq<T>, b: seq<T>, f: T -> int)
    ensures SumOf(a + b, f) == SumOf(a, f) + SumOf(b, f)
  {
    if a == [] {
      assert a + b == b;
    } else {
      assert (a + b)[1..] == a[1..] + b;
      SumAppend(a[1..], b, f);
    }
  }

  lemma SumCons<T>(x: T, s: seq<T>, f: T -> int)
    ensures SumOf([x] + s, f) == f(x) + SumOf(s, f)
  {
    assert ([x] + s)[1..] == s;
  }

  /** A sum of terms that each lie in `lo..hi` lies in `|s|*lo .. |s|*hi`. */
  lemma {:induction false} SumBounds<T>(s: seq<T>, f: T -> int, lo: int, hi: int)
    requires forall i :: 0 <= i < |s| ==> lo <= f(s[i]) <= hi
    ensures |s| * lo <= SumOf(s, f) <= |s| * hi
  {
    if s != [] {
      SumBounds(s[1..], f, lo, hi);
    }
  }

  /** Summing over the elements selected by two disjoint predicates. */
  lemma {:induction false} SumFilterDisjointUnion<T>(s: seq<T>, f: T -> int, p: T -> bool, q: T -> bool, pq: T -> bool)
    requires forall x :: !(p(x) && q(x))
    requires forall x :: pq(x) == (p(x) || q(x))
    ensures SumOf(Filter(s, p), f) + SumOf(Filter(s, q), f) == SumOf(Filter(s, pq), f)
  {
    if s != [] {
      SumFilterDisjointUnion(s[1..], f, p, q, pq);
      var x := s[0];
      assert pq(x) == (p(x) || q(x));
      if p(x) {
        assert !q(x);
        assert Filter(s, p) == [x] + Filter(s[1..], p);
        assert Filter(s, q) == Filter(s[1..], q);
        assert Filter(s, pq) == [x] + Filter(s[1..], pq);
        SumCons(x, Filter(s[1..], p), f);
        SumCons(x, Filter(s[1..], pq), f);
      } else if q(x) {
        assert Filter(s, p) == Filter(s[1..], p);
        assert Filter(s, q) == [x] + Filter(s[1..], q);
        assert Filter(s, pq) == [x] + Filter(s[1..], pq);
        SumCons(x, Filter(s[1..], q), f);
        SumCons(x, Filter(s[1..], pq), f);
      } else {
        assert Filter(s, p) == Filter(s[1..], p);
        assert Filter(s, q) == Filter(s[1..], q);
        assert Filter(s, pq) == Filter(s[1..], pq);
      }
    }
  }

  /** Summing non-negative terms over a smaller selection gives no more. */
  lemma {:induction false} SumFilterMonotone<T>(s: seq<T>, f: T -> int, p: T -> bool, q: T -> bool)
    requires forall x :: p(x) ==> q(x)
    requires forall i :: 0 <= i < |s| ==> f(s[i]) >= 0
    ensures SumOf(Filter(s, p), f) <= SumOf(Filter(s, q), f)
  {
    if s != [] {
      SumFilterMonotone(s[1..], f, p, q);
      var x := s[0];
      if p(x) {
        assert Filter(s, p) == [x] + Filter(s[1..], p);
        assert Filter(s, q) == [x] + Filter(s[1..], q);
        SumCons(x, Filter(s[1..], p), f);
        SumCons(x, Filter(s[1..], q), f);
      } else if q(x) {
        assert Filter(s, p) == Filter(s[1..], p);
        assert Filter(s, q) == [x] + Filter(s[1..], q);
        SumCons(x, Filter(s[1..], q), f);
      } else {
        assert Filter(s, p) == Filter(s[1..], p);
        assert Filter(s, q) == Filter(s[1..], q);
      }
    }
  }

  /** `s.filter((_, j) => j !== i)`: an index outside the list removes nothing. */
  function RemoveIndex<T>(s: seq<T>, i: int): (r: seq<T>)
    ensures 0 <= i < |s| ==> |r| == |s| - 1
    ensures !(0 <= i < |s|) ==> r == s
    ensures 0 <= i < |s| ==> forall j :: 0 <= j < |r| ==> r[j] == (if j < i then s[j] else s[j + 1])
  {
    if 0 <= i < |s| then s[..i] + s[i + 1..] else s
  }

  lemma RemoveIndexMultiset<T>(s: seq<T>, i: int)
    requires 0 <= i < |s|
    ensures multiset(RemoveIndex(s, i)) + multiset{s[i]} == multiset(s)
  {
    assert s == s[..i] + [s[i]] + s[i + 1..];
  }

  /** `s.slice(0, n)`. */
  function Take<T>(s: seq<T>, n: nat): (r: seq<T>)
    ensures |r| == if n < |s| then n else |s|
    ensures forall j :: 0 <= j < |r| ==> r[j] == s[j]
  {
    if n < |s| then s[..n] else s
  }
}
