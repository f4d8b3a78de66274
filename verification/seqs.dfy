/** Generic sequence and multiset helpers used throughout the game model. */
module Seqs {

  datatype Option<T> = None | Some(value: T)

  function Last<T>(s: seq<T>): T
    requires |s| > 0
  {
    s[|s| - 1]
  }

  /** The integers 0, 1, ..., n - 1. */
  function Range(n: nat): (r: seq<int>)
    ensures |r| == n
    ensures forall i :: 0 <= i < n ==> r[i] == i
  {
    seq(n, i => i)
  }

  /** The blocks f(lo), f(lo + 1), ..., f(hi - 1) joined in index order: the shape of
      every "for each index, push whatever moves are found there" scan of the game. */
  function Concat<T(!new)>(lo: int, hi: int, f: int -> seq<T>): (r: seq<T>)
    ensures forall x :: x in r <==> exists k :: lo <= k < hi && x in f(k)
    decreases hi - lo
  {
    if lo >= hi then [] else f(lo) + Concat(lo + 1, hi, f)
  }

  /** A scan whose every block is empty finds nothing. */
  lemma {:induction false} ConcatEmpty<T(!new)>(lo: int, hi: int, f: int -> seq<T>)
    requires forall k :: lo <= k < hi ==> f(k) == []
    ensures Concat(lo, hi, f) == []
    decreases hi - lo
  {
    if lo < hi {
      ConcatEmpty(lo + 1, hi, f);
    }
  }

  /** Every element of s comes strictly `before` every later one. */
  ghost predicate Ordered<T>(s: seq<T>, before: (T, T) -> bool) {
    forall a, b :: 0 <= a < b < |s| ==> before(s[a], s[b])
  }

  /** A scan is ordered when each block is, and everything found at a smaller index comes first. */
  lemma {:induction false} ConcatOrdered<T(!new)>(lo: int, hi: int, f: int -> seq<T>, before: (T, T) -> bool)
    requires forall k :: lo <= k < hi ==> Ordered(f(k), before)
    requires forall k1, k2, x, y :: lo <= k1 < k2 < hi && x in f(k1) && y in f(k2) ==> before(x, y)
    ensures Ordered(Concat(lo, hi, f), before)
    decreases hi - lo
  {
    if lo < hi {
      ConcatOrdered(lo + 1, hi, f, before);
      var head, rest := f(lo), Concat(lo + 1, hi, f);
      var r := Concat(lo, hi, f);
      assert r == head + rest;
      forall a, b | 0 <= a < b < |r|
        ensures before(r[a], r[b])
      {
        if b < |head| {
          assert r[a] == head[a] && r[b] == head[b];
        } else if a < |head| {
          assert r[a] in f(lo);
          assert r[b] == rest[b - |head|];
          assert r[b] in rest;
          var k :| lo + 1 <= k < hi && r[b] in f(k);
        } else {
          assert r[a] == rest[a - |head|] && r[b] == rest[b - |head|];
        }
      }
    }
  }

  /** When block k holds one element exactly where p(k) holds, the scan's length counts those k. */
  lemma {:induction false} ConcatLength<T(!new)>(lo: int, hi: int, f: int -> seq<T>, p: int -> bool)
    requires lo <= hi
    requires forall k :: lo <= k < hi ==> |f(k)| == if p(k) then 1 else 0
    ensures |Concat(lo, hi, f)| == |set k | lo <= k < hi && p(k)|
    decreases hi - lo
  {
    if lo < hi {
      ConcatLength(lo + 1, hi, f, p);
      var rest := set k | lo + 1 <= k < hi && p(k);
      var all := set k | lo <= k < hi && p(k);
      assert lo !in rest;
      if p(lo) {
        assert all == rest + {lo};
      } else {
        assert all == rest;
      }
    }
  }

  /** The sum of f over the elements of xs. */
  function Total<T, U>(xs: seq<T>, f: T -> multiset<U>): multiset<U>
    decreases |xs|
  {
    if |xs| == 0 then multiset{} else Total(xs[..|xs| - 1], f) + f(Last(xs))
  }

  /** Replacing one element changes the sum by exactly the difference of the two parts. */
  lemma {:induction false} TotalUpdate<T, U>(xs: seq<T>, i: int, x: T, f: T -> multiset<U>)
    requires 0 <= i < |xs|
    ensures Total(xs[i := x], f) + f(xs[i]) == Total(xs, f) + f(x)
    decreases |xs|
  {
    var n := |xs| - 1;
    var ys := xs[i := x];
    if i == n {
      assert ys[..n] == xs[..n];
    } else {
      var pre := xs[..n];
      assert ys[..n] == pre[i := x];
      assert pre[i] == xs[i];
      TotalUpdate(pre, i, x, f);
      var a, b, c := Total(pre[i := x], f), Total(pre, f), f(xs[n]);
      assert a + f(xs[i]) == b + f(x);
      assert Total(ys, f) == a + c;
      assert Total(xs, f) == b + c;
      assert (a + c) + f(xs[i]) == (a + f(xs[i])) + c;
    }
  }

  /** Each part is contained in the sum. */
  lemma {:induction false} TotalContains<T, U>(xs: seq<T>, i: int, f: T -> multiset<U>)
    requires 0 <= i < |xs|
    ensures f(xs[i]) <= Total(xs, f)
    decreases |xs|
  {
    var n := |xs| - 1;
    if i < n {
      TotalContains(xs[..n], i, f);
      assert xs[..n][i] == xs[i];
    }
  }

  /** Nothing occurs twice in s. */
  predicate Distinct<T(==)>(s: seq<T>) {
    forall a, b :: 0 <= a < b < |s| ==> s[a] != s[b]
  }

  lemma {:induction false} DistinctCountsAtMostOne<T>(s: seq<T>, x: T)
    requires Distinct(s)
    ensures multiset(s)[x] <= 1
    decreases |s|
  {
    if |s| > 0 {
      var n := |s| - 1;
      assert s == s[..n] + [s[n]];
      DistinctCountsAtMostOne(s[..n], x);
      if x == s[n] {
        assert forall a :: 0 <= a < n ==> s[..n][a] != s[n];
        assert x !in s[..n];
      }
    }
  }
}
