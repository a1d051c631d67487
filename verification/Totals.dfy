/** Sums over a sequence and the sort the bench relies on. */
module Totals {
  /** The sum of `f` over a sequence. */
  function Total<T>(s: seq<T>, f: T -> real): real {
    if s == [] then 0.0 else Total(s[..|s| - 1], f) + f(s[|s| - 1])
  }

  function Itself(x: real): real { x }

  lemma {:induction false} TotalExtend<T>(s: seq<T>, x: T, f: T -> real)
    ensures Total(s + [x], f) == Total(s, f) + f(x)
  {
    assert (s + [x])[..|s|] == s;
  }

  lemma {:induction false} TotalConcat<T>(a: seq<T>, b: seq<T>, f: T -> real)
    ensures Total(a + b, f) == Total(a, f) + Total(b, f)
  {
    if b == [] {
      assert a + b == a;
    } else {
      var init := b[..|b| - 1];
      assert a + b == (a + init) + [b[|b| - 1]];
      TotalExtend(a + init, b[|b| - 1], f);
      TotalConcat(a, init, f);
    }
  }

  lemma MultisetSplit<T>(left: seq<T>, x: T, right: seq<T>)
    ensures multiset(left + ([x] + right)) - multiset{x} == multiset(left + right)
  {
  }

  /** Where the last element of `a` stands in a permutation of `a`. */
  lemma LocateLast<T>(a: seq<T>, b: seq<T>) returns (left: seq<T>, right: seq<T>)
    requires a != [] && multiset(a) == multiset(b)
    ensures b == left + ([a[|a| - 1]] + right)
    ensures multiset(a[..|a| - 1]) == multiset(left + right)
  {
    var x, init := a[|a| - 1], a[..|a| - 1];
    assert a == init + ([x] + []) && init + [] == init;
    assert x in multiset(b);
    var p :| 0 <= p < |b| && b[p] == x;
    left, right := b[..p], b[p + 1..];
    assert b == left + ([x] + right);
    MultisetSplit(init, x, []);
    MultisetSplit(left, x, right);
  }

  lemma {:induction false} TotalAround<T>(left: seq<T>, x: T, right: seq<T>, f: T -> real)
    ensures Total(left + ([x] + right), f) == Total(left + right, f) + f(x)
  {
    TotalConcat(left, right, f);
    TotalConcat(left, [x] + right, f);
    TotalConcat([x], right, f);
    TotalExtend([], x, f);
    assert [] + [x] == [x];
  }

  /** A sum does not depend on the order of the terms. */
  lemma {:induction false} TotalPermutes<T>(a: seq<T>, b: seq<T>, f: T -> real)
    requires multiset(a) == multiset(b)
    ensures Total(a, f) == Total(b, f)
    decreases |a|
  {
    if a == [] {
      assert |multiset(b)| == 0;
    } else {
      var left, right := LocateLast(a, b);
      TotalPermutes(a[..|a| - 1], left + right, f);
      TotalAround(left, a[|a| - 1], right, f);
    }
  }

  lemma {:induction false} TotalAgree<T>(s: seq<T>, f: T -> real, g: T -> real)
    requires forall x | x in s :: f(x) == g(x)
    ensures Total(s, f) == Total(s, g)
  {
    if s != [] {
      TotalAgree(s[..|s| - 1], f, g);
    }
  }

  lemma {:induction false} TotalConstant<T>(s: seq<T>, f: T -> real, c: real)
    requires forall x | x in s :: f(x) == c
    ensures Total(s, f) == |s| as real * c
  {
    if s != [] {
      TotalConstant(s[..|s| - 1], f, c);
    }
  }

  lemma {:induction false} TotalAtMost<T>(s: seq<T>, f: T -> real, g: T -> real)
    requires forall x | x in s :: f(x) <= g(x)
    ensures Total(s, f) <= Total(s, g)
  {
    if s != [] {
      TotalAtMost(s[..|s| - 1], f, g);
    }
  }

  lemma {:induction false} TotalLess<T>(s: seq<T>, f: T -> real, g: T -> real, x: T)
    requires forall y | y in s :: f(y) <= g(y)
    requires x in s && f(x) < g(x)
    ensures Total(s, f) < Total(s, g)
  {
    if s[|s| - 1] == x {
      TotalAtMost(s[..|s| - 1], f, g);
    } else {
      TotalLess(s[..|s| - 1], f, g, x);
    }
  }

  /** Two sequences whose terms add up to `c` place by place. */
  lemma {:induction false} TotalsTogether<T, U>(a: seq<T>, b: seq<U>, f: T -> real, g: U -> real, c: real)
    requires |a| == |b|
    requires forall i | 0 <= i < |a| :: f(a[i]) + g(b[i]) == c
    ensures Total(a, f) + Total(b, g) == |a| as real * c
  {
    if a != [] {
      TotalsTogether(a[..|a| - 1], b[..|b| - 1], f, g, c);
    }
  }

  lemma QuotientOrder(a: real, b: real, n: real)
    requires n > 0.0 && a <= b
    ensures a / n <= b / n && (a / n == b / n <==> a == b)
  {
    assert a / n * n == a && b / n * n == b;
  }

  // ---------------------------------------------------------------- sorting

  ghost predicate SortedBy<T>(s: seq<T>, key: T -> real) {
    forall i, j | 0 <= i < j < |s| :: key(s[i]) <= key(s[j])
  }

  function InsertBy<T>(x: T, s: seq<T>, key: T -> real): (r: seq<T>)
    requires SortedBy(s, key)
    ensures SortedBy(r, key) && multiset(r) == multiset(s) + multiset{x}
  {
    if s == [] || key(s[|s| - 1]) <= key(x) then s + [x]
    else
      var init, last := s[..|s| - 1], s[|s| - 1];
      assert s == init + [last];
      var r := InsertBy(x, init, key);
      LargestLast(r, init, x, last, key);
      r + [last]
  }

  lemma LargestLast<T>(r: seq<T>, init: seq<T>, x: T, last: T, key: T -> real)
    requires SortedBy(r, key) && multiset(r) == multiset(init) + multiset{x}
    requires SortedBy(init + [last], key) && key(x) <= key(last)
    ensures SortedBy(r + [last], key)
  {
    forall i | 0 <= i < |r| ensures key(r[i]) <= key(last) {
      assert r[i] in multiset(r);
      if r[i] != x {
        assert r[i] in multiset(init);
        var j :| 0 <= j < |init| && init[j] == r[i];
        assert (init + [last])[j] == r[i] && (init + [last])[|init|] == last;
      }
    }
  }

  /** The stable sort by a key: a sorted permutation. */
  function SortBy<T>(s: seq<T>, key: T -> real): (r: seq<T>)
    ensures SortedBy(r, key) && multiset(r) == multiset(s)
  {
    if s == [] then []
    else
      assert s == s[..|s| - 1] + [s[|s| - 1]];
      InsertBy(s[|s| - 1], SortBy(s[..|s| - 1], key), key)
  }
}
