/** Tie-averaged ranks (src/bench.rs, `average_ranks`). */
module Ranks {
  import opened Totals

  function Below(v: real): real -> real { x => if x < v then 1.0 else 0.0 }

  function Tied(v: real): real -> real { x => if x == v then 1.0 else 0.0 }

  /** How many observations are smaller than `v`. */
  function CountBelow(xs: seq<real>, v: real): real { Total(xs, Below(v)) }

  /** How many observations equal `v`. */
  function CountTied(xs: seq<real>, v: real): real { Total(xs, Tied(v)) }

  /** The middle of the places the observations equal to `v` take in sorted order, counted from 1. */
  function Rank(xs: seq<real>, v: real): real {
    CountBelow(xs, v) + (CountTied(xs, v) + 1.0) / 2.0
  }

  function RankIn(xs: seq<real>): real -> real { v => Rank(xs, v) }

  function RanksOf(xs: seq<real>): (ranks: seq<real>)
    ensures |ranks| == |xs|
  {
    seq(|xs|, k requires 0 <= k < |xs| => Rank(xs, xs[k]))
  }

  // ---------------------------------------------------------------- the algorithm

  function Indices(n: nat): (s: seq<nat>)
    ensures |s| == n && forall k | 0 <= k < n :: s[k] == k
  {
    seq(n, k => k)
  }

  /** `f` of the observation with a given index. */
  function Pick(xs: seq<real>, f: real -> real): nat -> real {
    (k: nat) => if k < |xs| then f(xs[k]) else 0.0
  }

  function Value(xs: seq<real>): nat -> real { (k: nat) => if k < |xs| then xs[k] else 0.0 }

  /** Any order that sorts the observations, ties in whatever order. */
  ghost predicate Orders(xs: seq<real>, order: seq<nat>) {
    multiset(order) == multiset(Indices(|xs|)) && SortedBy(order, Value(xs))
  }

  method AverageRanks(xs: seq<real>) returns (ranks: seq<real>)
    ensures ranks == RanksOf(xs)
  {
    var order := SortBy(Indices(|xs|), Value(xs));
    ranks := RanksAlong(xs, order);
  }

  /** The double loop over the groups of ties, for any sorting order. */
  method RanksAlong(xs: seq<real>, order: seq<nat>) returns (result: seq<real>)
    requires Orders(xs, order)
    ensures result == RanksOf(xs)
  {
    hide Rank, SortedBy;
    OrderCovers(xs, order);
    var ranks := new real[|xs|](_ => 0.0);
    var i := 0;
    while i < |order|
      invariant 0 <= i <= |order|
      invariant 0 < i < |order| ==> xs[order[i - 1]] < xs[order[i]]
      invariant forall m | 0 <= m < i :: ranks[order[m]] == Rank(xs, xs[order[m]])
    {
      var j := i;
      while j + 1 < |order| && xs[order[j + 1]] == xs[order[i]]
        invariant i <= j < |order|
        invariant forall m | i <= m <= j :: xs[order[m]] == xs[order[i]]
      {
        j := j + 1;
      }
      var rank := (i + j) as real / 2.0 + 1.0;
      GroupRank(xs, order, i, j);
      for m := i to j + 1
        invariant forall l | 0 <= l < m :: ranks[order[l]] == Rank(xs, xs[order[l]])
      {
        ranks[order[m]] := rank;
      }
      i := j + 1;
    }
    result := ranks[..];
    forall k: nat | k < |xs| ensures ranks[k] == Rank(xs, xs[k]) {
      assert k in order;
      var m :| 0 <= m < |order| && order[m] == k;
    }
  }

  /** An order names every observation once and only observations; neighbours do not decrease. */
  lemma OrderCovers(xs: seq<real>, order: seq<nat>)
    requires Orders(xs, order)
    ensures |order| == |xs|
    ensures forall m | 0 <= m < |order| :: order[m] < |xs|
    ensures forall k: nat | k < |xs| :: k in order
    ensures forall l, m | 0 <= l <= m < |order| :: xs[order[l]] <= xs[order[m]]
  {
    var all := Indices(|xs|);
    assert |multiset(order)| == |multiset(all)|;
    forall m | 0 <= m < |order| ensures order[m] < |xs| {
      assert order[m] in multiset(order) && order[m] in multiset(all);
    }
    forall k: nat | k < |xs| ensures k in order {
      assert all[k] in multiset(all) && k in multiset(order);
    }
    forall l, m | 0 <= l <= m < |order| ensures xs[order[l]] <= xs[order[m]] {
      assert Value(xs)(order[l]) <= Value(xs)(order[m]);
    }
  }

  lemma {:induction false} TotalOfIndices(xs: seq<real>, f: real -> real, n: nat)
    requires n <= |xs|
    ensures Total(Indices(n), Pick(xs, f)) == Total(xs[..n], f)
  {
    if n > 0 {
      TotalOfIndices(xs, f, n - 1);
      assert Indices(n)[..n - 1] == Indices(n - 1);
      assert xs[..n][..n - 1] == xs[..n - 1];
    }
  }

  /** A total over the observations may be taken along the order, group by group. */
  lemma {:induction false} TotalAlong(xs: seq<real>, order: seq<nat>, f: real -> real, i: nat, j: nat)
    requires Orders(xs, order) && i <= j <= |order|
    ensures Total(xs, f) ==
            Total(order[..i], Pick(xs, f)) + Total(order[i..j], Pick(xs, f)) + Total(order[j..], Pick(xs, f))
  {
    TotalOfIndices(xs, f, |xs|);
    assert xs[..|xs|] == xs;
    TotalPermutes(Indices(|xs|), order, Pick(xs, f));
    assert order == (order[..i] + order[i..j]) + order[j..];
    TotalConcat(order[..i] + order[i..j], order[j..], Pick(xs, f));
    TotalConcat(order[..i], order[i..j], Pick(xs, f));
  }

  /** The total of a function that is constant before the group, in it, and zero behind it. */
  lemma {:induction false} GroupTotal(xs: seq<real>, order: seq<nat>, f: real -> real, i: nat, j: nat, p: real, q: real)
    requires Orders(xs, order) && i <= j <= |order| == |xs|
    requires forall m | 0 <= m < |order| :: order[m] < |xs|
    requires forall m | 0 <= m < |order| :: f(xs[order[m]]) == if m < i then p else if m < j then q else 0.0
    ensures Total(xs, f) == i as real * p + (j - i) as real * q
  {
    hide Total, SortedBy, Orders;
    var front, group, back := order[..i], order[i..j], order[j..];
    forall k | k in front ensures Pick(xs, f)(k) == p {
      var m :| 0 <= m < i && order[m] == k;
    }
    forall k | k in group ensures Pick(xs, f)(k) == q {
      var m :| 0 <= m < j - i && group[m] == k;
      assert order[i + m] == k;
    }
    forall k | k in back ensures Pick(xs, f)(k) == 0.0 {
      var m :| 0 <= m < |back| && back[m] == k;
      assert order[j + m] == k;
    }
    TotalAlong(xs, order, f, i, j);
    TotalConstant(front, Pick(xs, f), p);
    TotalConstant(group, Pick(xs, f), q);
    TotalConstant(back, Pick(xs, f), 0.0);
  }

  /** The number the loop gives to the group from `i` to `j`. */
  lemma GroupRank(xs: seq<real>, order: seq<nat>, i: nat, j: nat)
    requires Orders(xs, order) && i <= j < |order| == |xs|
    requires forall m | 0 <= m < |order| :: order[m] < |xs|
    requires forall m | i <= m <= j :: xs[order[m]] == xs[order[i]]
    requires i > 0 ==> xs[order[i - 1]] < xs[order[i]]
    requires j + 1 < |order| ==> xs[order[j + 1]] != xs[order[i]]
    ensures Rank(xs, xs[order[i]]) == (i + j) as real / 2.0 + 1.0
  {
    hide Total, SortedBy, Orders;
    OrderCovers(xs, order);
    var v := xs[order[i]];
    forall m | 0 <= m < |order|
      ensures m < i ==> xs[order[m]] < v
      ensures m > j ==> xs[order[m]] > v
    {
      assert m < i ==> xs[order[m]] <= xs[order[i - 1]];
      assert m > j ==> xs[order[i]] <= xs[order[j + 1]] <= xs[order[m]];
    }
    GroupTotal(xs, order, Below(v), i, j + 1, 1.0, 0.0);
    GroupTotal(xs, order, Tied(v), i, j + 1, 0.0, 1.0);
  }

  // ---------------------------------------------------------------- what ranks are

  /** What the pair of an observation and `v` adds to the rank of `v`. */
  function Share(v: real): real -> real {
    x => if x < v then 1.0 else if x == v then 0.5 else 0.0
  }

  lemma {:induction false} RankIsShares(xs: seq<real>, v: real)
    ensures Rank(xs, v) == 0.5 + Total(xs, Share(v))
  {
    if xs != [] {
      RankIsShares(xs[..|xs| - 1], v);
    }
  }

  /** The shares the old observations have in a new one and it in them: one for each pair. */
  lemma {:induction false} PairsShareOne(s: seq<real>, init: seq<real>, x: real)
    ensures Total(s, RankIn(init + [x])) + Total(s, Share(x)) == Total(s, RankIn(init)) + |s| as real
  {
    if s != [] {
      var y := s[|s| - 1];
      PairsShareOne(s[..|s| - 1], init, x);
      RankIsShares(init + [x], y);
      RankIsShares(init, y);
      TotalExtend(init, x, Share(y));
    }
  }

  /** The ranks of `n` observations add up to `n * (n + 1) / 2`, ties or not. */
  lemma {:induction false} RanksAddUp(xs: seq<real>)
    ensures Total(xs, RankIn(xs)) == Triangular(|xs|)
  {
    if xs != [] {
      hide Total, Rank, Share, Triangular;
      var init, x := xs[..|xs| - 1], xs[|xs| - 1];
      assert xs == init + [x];
      RanksAddUp(init);
      PairsShareOne(init, init, x);
      RankIsShares(xs, x);
      TotalExtend(init, x, Share(x));
      TotalExtend(init, x, RankIn(xs));
      assert Share(x)(x) == 0.5 by { OwnShare(x); }
      TriangularStep(|init|);
    } else {
      assert Triangular(0) == 0.0;
    }
  }

  lemma OwnShare(x: real)
    ensures Share(x)(x) == 0.5
  {
  }

  function Triangular(n: nat): real { (n * (n + 1)) as real / 2.0 }

  lemma TriangularStep(n: nat)
    ensures Triangular(n + 1) == Triangular(n) + (n + 1) as real
  {
    assert (n + 1) * (n + 2) == n * (n + 1) + 2 * (n + 1);
  }

  lemma RanksOfAddUp(xs: seq<real>)
    ensures Total(RanksOf(xs), Itself) == (|xs| * (|xs| + 1)) as real / 2.0
  {
    RanksAddUp(xs);
    RanksOfTotal(xs, |xs|);
    assert xs[..|xs|] == xs && RanksOf(xs)[..|xs|] == RanksOf(xs);
  }

  lemma {:induction false} RanksOfTotal(xs: seq<real>, n: nat)
    requires n <= |xs|
    ensures Total(RanksOf(xs)[..n], Itself) == Total(xs[..n], RankIn(xs))
  {
    if n > 0 {
      RanksOfTotal(xs, n - 1);
      assert RanksOf(xs)[..n][..n - 1] == RanksOf(xs)[..n - 1] && xs[..n][..n - 1] == xs[..n - 1];
    }
  }

  /** A smaller observation has a strictly smaller rank; equal ones share theirs. */
  lemma RankMonotone(xs: seq<real>, v: real, w: real)
    requires v in xs && w in xs
    ensures v < w <==> Rank(xs, v) < Rank(xs, w)
    ensures v == w <==> Rank(xs, v) == Rank(xs, w)
  {
    hide Rank;
    if v < w {
      RankGrows(xs, v, w);
    } else if w < v {
      RankGrows(xs, w, v);
    }
  }

  lemma RankGrows(xs: seq<real>, v: real, w: real)
    requires v in xs && v < w
    ensures Rank(xs, v) < Rank(xs, w)
  {
    hide Rank;
    RankIsShares(xs, v);
    RankIsShares(xs, w);
    TotalLess(xs, Share(v), Share(w), v);
  }

  /** Two vectors that order the observations in the same way. */
  ghost predicate SameOrder(xs: seq<real>, ys: seq<real>) {
    |xs| == |ys| && forall i, j | 0 <= i < |xs| && 0 <= j < |xs| :: xs[i] < xs[j] <==> ys[i] < ys[j]
  }

  /** Two vectors that order the observations in opposite ways. */
  ghost predicate OppositeOrder(xs: seq<real>, ys: seq<real>) {
    |xs| == |ys| && forall i, j | 0 <= i < |xs| && 0 <= j < |xs| :: xs[i] < xs[j] <==> ys[i] > ys[j]
  }

  /** Ranks say how the observations are ordered and nothing else. */
  lemma RanksAreTheOrder(xs: seq<real>, ys: seq<real>)
    requires |xs| == |ys|
    ensures RanksOf(xs) == RanksOf(ys) <==> SameOrder(xs, ys)
  {
    hide Rank;
    if SameOrder(xs, ys) {
      forall k | 0 <= k < |xs| ensures RanksOf(xs)[k] == RanksOf(ys)[k] {
        SameRank(xs, ys, k);
      }
    }
    if RanksOf(xs) == RanksOf(ys) {
      forall i, j | 0 <= i < |xs| && 0 <= j < |xs| ensures xs[i] < xs[j] <==> ys[i] < ys[j] {
        RankMonotone(xs, xs[i], xs[j]);
        RankMonotone(ys, ys[i], ys[j]);
        assert RanksOf(xs)[i] == RanksOf(ys)[i] && RanksOf(xs)[j] == RanksOf(ys)[j];
      }
    }
  }

  lemma SameRank(xs: seq<real>, ys: seq<real>, k: nat)
    requires SameOrder(xs, ys) && k < |xs|
    ensures Rank(xs, xs[k]) == Rank(ys, ys[k])
  {
    hide Rank;
    RankIsShares(xs, xs[k]);
    RankIsShares(ys, ys[k]);
    var opposite := (y: real) => -Share(ys[k])(y);
    TotalsTogether(xs, ys, Share(xs[k]), opposite, 0.0);
    TotalsTogether(ys, ys, Share(ys[k]), opposite, 0.0);
  }

  /** Reversing the order turns rank `r` into `n + 1 - r`. */
  lemma OppositeRank(xs: seq<real>, ys: seq<real>, k: nat)
    requires OppositeOrder(xs, ys) && k < |xs|
    ensures Rank(xs, xs[k]) + Rank(ys, ys[k]) == (|xs| + 1) as real
  {
    hide Rank;
    RankIsShares(xs, xs[k]);
    RankIsShares(ys, ys[k]);
    TotalsTogether(xs, ys, Share(xs[k]), Share(ys[k]), 1.0);
  }
}
