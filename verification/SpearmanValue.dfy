/** What a rank correlation is worth, told from the ranks alone. */
module SpearmanValue {
  import opened Wrappers
  import opened Totals
  import opened Ranks
  import opened Correlation

  // ---------------------------------------------------------------- ranks by counting

  ghost function Smaller(xs: seq<real>, v: real): set<int> {
    set j | 0 <= j < |xs| && xs[j] < v
  }

  ghost function Equal(xs: seq<real>, v: real): set<int> {
    set j | 0 <= j < |xs| && xs[j] == v
  }

  /** The rank of observation `k`: behind all smaller ones, in the middle of the equal ones. */
  ghost function MidRank(xs: seq<real>, k: nat): real
    requires k < |xs|
  {
    |Smaller(xs, xs[k])| as real + (|Equal(xs, xs[k])| + 1) as real / 2.0
  }

  lemma OneMoreCounted(xs: seq<real>, v: real)
    requires xs != []
    ensures var n, init := |xs| - 1, xs[..|xs| - 1];
            && |Smaller(xs, v)| == |Smaller(init, v)| + (if xs[n] < v then 1 else 0)
            && |Equal(xs, v)| == |Equal(init, v)| + (if xs[n] == v then 1 else 0)
  {
    var n, init := |xs| - 1, xs[..|xs| - 1];
    assert Smaller(xs, v) == Smaller(init, v) + if xs[n] < v then {n} else {};
    assert Equal(xs, v) == Equal(init, v) + if xs[n] == v then {n} else {};
  }

  lemma {:induction false} Counted(xs: seq<real>, v: real)
    ensures CountBelow(xs, v) == |Smaller(xs, v)| as real && CountTied(xs, v) == |Equal(xs, v)| as real
  {
    if xs == [] {
      assert Smaller(xs, v) == {} && Equal(xs, v) == {};
    } else {
      Counted(xs[..|xs| - 1], v);
      OneMoreCounted(xs, v);
    }
  }

  lemma MidRankIs(xs: seq<real>, k: nat)
    requires k < |xs|
    ensures RanksOf(xs)[k] == MidRank(xs, k)
  {
    hide CountBelow, CountTied, Smaller, Equal;
    Counted(xs, xs[k]);
  }

  // ---------------------------------------------------------------- moments of ranks

  /** How far the rank of observation `k` is from the middle rank. */
  ghost function Off(xs: seq<real>, k: nat): real
    requires k < |xs|
  {
    MidRank(xs, k) - (|xs| + 1) as real / 2.0
  }

  /** The sum of the products of these distances over the first `n` observations. */
  ghost function RankMoment(xs: seq<real>, ys: seq<real>, n: nat): real
    requires n <= |xs| && n <= |ys|
  {
    if n == 0 then 0.0 else RankMoment(xs, ys, n - 1) + Off(xs, n - 1) * Off(ys, n - 1)
  }

  lemma MeanOfRanks(xs: seq<real>)
    requires xs != []
    ensures Mean(RanksOf(xs)) == (|xs| + 1) as real / 2.0
  {
    hide Total;
    RanksOfAddUp(xs);
    HalfOfProduct(|xs|);
  }

  lemma HalfOfProduct(n: nat)
    requires n > 0
    ensures (n * (n + 1)) as real / 2.0 / n as real == (n + 1) as real / 2.0
  {
    var a, b := n as real, (n + 1) as real;
    assert (n * (n + 1)) as real == a * b;
    assert (a * b / 2.0) == a * (b / 2.0);
    assert a * (b / 2.0) / a == b / 2.0;
  }

  lemma OffIs(xs: seq<real>, k: nat)
    requires k < |xs|
    ensures Deviations(RanksOf(xs))[k] == Off(xs, k)
  {
    hide Mean, MidRank;
    MidRankIs(xs, k);
    MeanOfRanks(xs);
  }

  lemma DotUpTo(a: seq<real>, b: seq<real>, n: nat)
    requires 0 < n <= |a| == |b|
    ensures Dot(a[..n], b[..n]) == Dot(a[..n - 1], b[..n - 1]) + a[n - 1] * b[n - 1]
  {
    hide Dot;
    assert a[..n] == a[..n - 1] + [a[n - 1]] && b[..n] == b[..n - 1] + [b[n - 1]];
    DotExtend(a[..n - 1], b[..n - 1], a[n - 1], b[n - 1]);
  }

  /** `d` lists the distances of the ranks from the middle rank. */
  ghost predicate Offs(xs: seq<real>, d: seq<real>) {
    |d| == |xs| && forall k | 0 <= k < |xs| :: d[k] == Off(xs, k)
  }

  lemma {:induction false} MomentUpTo(xs: seq<real>, ys: seq<real>, dx: seq<real>, dy: seq<real>, n: nat)
    requires Offs(xs, dx) && Offs(ys, dy) && n <= |xs| == |ys|
    ensures Dot(dx[..n], dy[..n]) == RankMoment(xs, ys, n)
  {
    if n > 0 {
      hide Off, Dot;
      MomentUpTo(xs, ys, dx, dy, n - 1);
      DotUpTo(dx, dy, n);
    }
  }

  lemma DeviationsAreOffs(xs: seq<real>)
    ensures Offs(xs, Deviations(RanksOf(xs)))
  {
    hide Off, Mean;
    forall k | 0 <= k < |xs| ensures Deviations(RanksOf(xs))[k] == Off(xs, k) {
      OffIs(xs, k);
    }
  }

  lemma {:induction false} ComomentIs(xs: seq<real>, ys: seq<real>)
    requires |xs| == |ys|
    ensures Comoment(RanksOf(xs), RanksOf(ys)) == RankMoment(xs, ys, |xs|)
  {
    var dx, dy := Deviations(RanksOf(xs)), Deviations(RanksOf(ys));
    hide Dot, RankMoment, Deviations, RanksOf, Off;
    DeviationsAreOffs(xs);
    DeviationsAreOffs(ys);
    MomentUpTo(xs, ys, dx, dy, |xs|);
    assert dx[..|xs|] == dx && dy[..|xs|] == dy;
  }

  // ---------------------------------------------------------------- the value

  lemma QuotientSquared(ab: real, root: real, product: real)
    requires root > 0.0 && root * root == product
    ensures var r := ab / root;
            && r * r * product == ab * ab && (r > 0.0 <==> ab > 0.0) && (r < 0.0 <==> ab < 0.0)
  {
    var r := ab / root;
    assert r * root == ab;
    calc {
      r * r * product;
      r * r * (root * root);
      (r * root) * (r * root);
      ab * ab;
    }
    SignOfProduct(r, root);
  }

  /** `r` is the number whose square times both moments is the square of the mixed one, with its sign. */
  ghost predicate IsCorrelation(r: real, sxx: real, syy: real, sxy: real) {
    r * r * (sxx * syy) == sxy * sxy && (r > 0.0 <==> sxy > 0.0) && (r < 0.0 <==> sxy < 0.0)
  }

  lemma PearsonValue(xs: seq<real>, ys: seq<real>, sqrt: real -> real)
    requires |xs| == |ys| && IsSqrt(sqrt)
    ensures var r := PearsonOf(xs, ys, sqrt);
            r.Some? ==> IsCorrelation(r.value, Comoment(xs, xs), Comoment(ys, ys), Comoment(xs, ys))
  {
    hide Comoment, IsSqrt;
    var sxx, syy, sxy := Comoment(xs, xs), Comoment(ys, ys), Comoment(xs, ys);
    if sxx > 0.0 && syy > 0.0 {
      RootOfProduct(sqrt, sxx, syy);
      var root := sqrt(Times(sxx, syy));
      assert root * root == sxx * syy;
      QuotientSquared(sxy, root, sxx * syy);
      assert PearsonOf(xs, ys, sqrt) == Some(sxy / root);
    }
  }

  /**
   The value of the correlation, ties or not: r * r * sxx * syy == sxy * sxy with the sign of sxy, the sums taken over the
   distances of the ranks from the middle rank (n + 1) / 2.
   */
  lemma {:induction false} SpearmanIs(xs: seq<real>, ys: seq<real>, sqrt: real -> real)
    requires IsSqrt(sqrt) && |xs| == |ys|
    ensures var r, n := SpearmanOf(xs, ys, sqrt), |xs|;
            r.Some? ==> IsCorrelation(r.value, RankMoment(xs, xs, n), RankMoment(ys, ys, n), RankMoment(xs, ys, n))
  {
    hide Comoment, RanksOf, RankMoment, IsCorrelation;
    ComomentIs(xs, xs);
    ComomentIs(ys, ys);
    ComomentIs(xs, ys);
    PearsonValue(RanksOf(xs), RanksOf(ys), sqrt);
  }

  // ---------------------------------------------------------------- without ties

  ghost predicate TieFree(xs: seq<real>) {
    forall i, j | 0 <= i < j < |xs| :: xs[i] != xs[j]
  }

  /** The sum of the squared differences of the ranks of the first `n` observations. */
  ghost function SquaredDifferences(xs: seq<real>, ys: seq<real>, n: nat): real
    requires n <= |xs| && n <= |ys|
  {
    if n == 0 then 0.0
    else
      var d := MidRank(xs, n - 1) - MidRank(ys, n - 1);
      SquaredDifferences(xs, ys, n - 1) + d * d
  }

  lemma MomentStep(xs: seq<real>, ys: seq<real>, n: nat)
    requires 0 < n <= |xs| == |ys|
    ensures RankMoment(xs, ys, n) == RankMoment(xs, ys, n - 1) + Times(Off(xs, n - 1), Off(ys, n - 1))
  {
    hide Off;
  }

  lemma DifferenceStep(xs: seq<real>, ys: seq<real>, n: nat)
    requires 0 < n <= |xs| == |ys|
    ensures var d := Off(xs, n - 1) - Off(ys, n - 1);
            SquaredDifferences(xs, ys, n) == SquaredDifferences(xs, ys, n - 1) + Times(d, d)
  {
    hide MidRank;
    OffsDiffer(xs, ys, n - 1);
  }

  /** (x - y)^2 summed up is xx + yy - 2 xy summed up; the middle rank drops out. */
  lemma {:induction false} DifferencesSplit(xs: seq<real>, ys: seq<real>, n: nat)
    requires n <= |xs| == |ys|
    ensures SquaredDifferences(xs, ys, n)
         == RankMoment(xs, xs, n) + RankMoment(ys, ys, n) - 2.0 * RankMoment(xs, ys, n)
  {
    if n > 0 {
      hide Off, RankMoment, SquaredDifferences, Times;
      DifferencesSplit(xs, ys, n - 1);
      MomentStep(xs, xs, n);
      MomentStep(ys, ys, n);
      MomentStep(xs, ys, n);
      DifferenceStep(xs, ys, n);
      SquareOfDifference(Off(xs, n - 1), Off(ys, n - 1));
    }
  }

  lemma OffsDiffer(xs: seq<real>, ys: seq<real>, k: nat)
    requires k < |xs| == |ys|
    ensures MidRank(xs, k) - MidRank(ys, k) == Off(xs, k) - Off(ys, k)
  {
    hide MidRank;
  }

  lemma SquareOfDifference(x: real, y: real)
    ensures Times(x - y, x - y) == Times(x, x) + Times(y, y) - 2.0 * Times(x, y)
  {
  }

  /** The squared distance of the rank of `v` from the middle. */
  ghost function SquareOff(xs: seq<real>): real -> real {
    v => (Rank(xs, v) - (|xs| + 1) as real / 2.0) * (Rank(xs, v) - (|xs| + 1) as real / 2.0)
  }

  lemma {:induction false} MomentIsTotal(xs: seq<real>, n: nat)
    requires n <= |xs|
    ensures RankMoment(xs, xs, n) == Total(xs[..n], SquareOff(xs))
  {
    if n > 0 {
      hide Off, Total, SquareOff, RankMoment, Times;
      MomentIsTotal(xs, n - 1);
      MomentStep(xs, xs, n);
      SquareOffIs(xs, n - 1);
      assert xs[..n] == xs[..n - 1] + [xs[n - 1]];
      TotalExtend(xs[..n - 1], xs[n - 1], SquareOff(xs));
    } else {
      NothingToAdd(SquareOff(xs));
      assert xs[..0] == [];
    }
  }

  lemma SquareOffIs(xs: seq<real>, k: nat)
    requires k < |xs|
    ensures SquareOff(xs)(xs[k]) == Times(Off(xs, k), Off(xs, k))
  {
    hide Rank, MidRank;
    MidRankIs(xs, k);
  }

  lemma NothingToAdd<T>(f: T -> real)
    ensures Total([], f) == 0.0
  {
  }

  /** Along the order the ranks without ties are 1, 2, 3 and so on. */
  lemma RankAlong(xs: seq<real>, order: seq<nat>, m: nat)
    requires TieFree(xs) && Orders(xs, order) && m < |order| == |xs|
    requires forall k | 0 <= k < |order| :: order[k] < |xs|
    ensures Rank(xs, xs[order[m]]) == (m + 1) as real
  {
    hide Rank, Orders;
    OrderCovers(xs, order);
    DistinctOrder(xs, order);
    GroupRank(xs, order, m, m);
  }

  lemma DistinctOrder(xs: seq<real>, order: seq<nat>)
    requires TieFree(xs) && Orders(xs, order)
    ensures |order| == |xs|
    ensures forall k | 0 <= k < |order| :: order[k] < |xs|
    ensures forall k | 0 < k < |order| :: xs[order[k - 1]] < xs[order[k]]
  {
    OrderCovers(xs, order);
    forall k | 0 < k < |order| ensures xs[order[k - 1]] < xs[order[k]] {
      OrderRepeatsNothing(xs, order, k - 1, k);
    }
  }

  /** An order names no observation twice. */
  lemma OrderRepeatsNothing(xs: seq<real>, order: seq<nat>, i: nat, j: nat)
    requires Orders(xs, order) && i < j < |order|
    ensures order[i] != order[j]
  {
    var all := Indices(|xs|);
    if order[i] == order[j] {
      TwiceInside(order, i, j);
      OnceInside(all, order[i]);
    }
  }

  lemma TwiceInside(s: seq<nat>, i: nat, j: nat)
    requires i < j < |s| && s[i] == s[j]
    ensures multiset(s)[s[i]] >= 2
  {
    assert s == s[..i] + [s[i]] + s[i + 1..j] + [s[j]] + s[j + 1..];
  }

  lemma OnceInside(s: seq<nat>, x: nat)
    requires forall k | 0 <= k < |s| :: s[k] == k
    ensures multiset(s)[x] <= 1
  {
    if multiset(s)[x] >= 1 {
      assert x in s;
      assert s == s[..x] + [s[x]] + s[x + 1..];
      assert x !in s[..x] && x !in s[x + 1..];
    }
  }

  /** The first `j` terms of the sum of (m - c)^2, m from 1: a polynomial in j. */
  function Cubic(j: real, c: real): real {
    j * (j + 1.0) * (2.0 * j + 1.0) / 6.0 - c * j * (j + 1.0) + j * c * c
  }

  lemma CubicStep(j: real, c: real)
    ensures Cubic(j + 1.0, c) == Cubic(j, c) + (j + 1.0 - c) * (j + 1.0 - c)
  {
    var k := j + 1.0;
    assert k * (k + 1.0) * (2.0 * k + 1.0) == j * (j + 1.0) * (2.0 * j + 1.0) + 6.0 * k * k;
    assert c * k * (k + 1.0) == c * j * (j + 1.0) + 2.0 * c * k;
    assert (k - c) * (k - c) == k * k - 2.0 * c * k + c * c;
    assert k * c * c == j * c * c + c * c;
  }

  lemma TotalUpTo(s: seq<nat>, f: nat -> real, m: nat)
    requires 0 < m <= |s|
    ensures Total(s[..m], f) == Total(s[..m - 1], f) + f(s[m - 1])
  {
    hide Total;
    assert s[..m] == s[..m - 1] + [s[m - 1]];
    TotalExtend(s[..m - 1], s[m - 1], f);
  }

  lemma NoSquares(s: seq<nat>, f: nat -> real, c: real)
    ensures Total(s[..0], f) == Cubic(0.0, c)
  {
    NothingToAdd(f);
    assert s[..0] == [];
    assert Cubic(0.0, c) == 0.0 * 1.0 * 1.0 / 6.0 - c * 0.0 * 1.0 + 0.0 * c * c == 0.0;
  }

  lemma SquareAt(xs: seq<real>, order: seq<nat>, m: nat)
    requires TieFree(xs) && Orders(xs, order) && m < |order| == |xs|
    requires forall k | 0 <= k < |order| :: order[k] < |xs|
    ensures var c := (|xs| + 1) as real / 2.0;
            Pick(xs, SquareOff(xs))(order[m]) == ((m + 1) as real - c) * ((m + 1) as real - c)
  {
    hide Rank, Orders, TieFree;
    RankAlong(xs, order, m);
  }

  lemma {:induction false} SquaresAlong(xs: seq<real>, order: seq<nat>, m: nat)
    requires TieFree(xs) && Orders(xs, order) && m <= |order| == |xs|
    requires forall k | 0 <= k < |order| :: order[k] < |xs|
    ensures Total(order[..m], Pick(xs, SquareOff(xs))) == Cubic(m as real, (|xs| + 1) as real / 2.0)
  {
    hide Total, Orders, Cubic, TieFree, Rank, Pick, SquareOff;
    if m == 0 {
      NoSquares(order, Pick(xs, SquareOff(xs)), (|xs| + 1) as real / 2.0);
    } else {
      SquaresAlong(xs, order, m - 1);
      TotalUpTo(order, Pick(xs, SquareOff(xs)), m);
      SquareAt(xs, order, m - 1);
      CubicStep((m - 1) as real, (|xs| + 1) as real / 2.0);
    }
  }

  /** Without ties both moments are n (n * n - 1) / 12. */
  lemma {:induction false} MomentWithoutTies(xs: seq<real>)
    requires TieFree(xs)
    ensures var n := |xs| as real; RankMoment(xs, xs, |xs|) == n * (n * n - 1.0) / 12.0
  {
    hide RankMoment, Total, Cubic, SquareOff, TieFree, SortedBy;
    var order := SomeOrder(xs);
    hide Orders;
    OrderCovers(xs, order);
    MomentIsTotal(xs, |xs|);
    TotalInOrder(xs, order, SquareOff(xs));
    assert xs[..|xs|] == xs && order[..|xs|] == order;
    SquaresAlong(xs, order, |xs|);
    CubicOfMiddle(|xs| as real);
  }

  lemma SomeOrder(xs: seq<real>) returns (order: seq<nat>)
    ensures Orders(xs, order)
  {
    order := SortBy(Indices(|xs|), Value(xs));
  }

  lemma {:induction false} TotalInOrder(xs: seq<real>, order: seq<nat>, f: real -> real)
    requires Orders(xs, order)
    ensures Total(xs, f) == Total(order, Pick(xs, f))
  {
    hide Total, SortedBy, Pick;
    TotalOfIndices(xs, f, |xs|);
    assert xs[..|xs|] == xs;
    TotalPermutes(Indices(|xs|), order, Pick(xs, f));
  }

  lemma CubicOfMiddle(n: real)
    ensures Cubic(n, (n + 1.0) / 2.0) == n * (n * n - 1.0) / 12.0
  {
    var c, m := (n + 1.0) / 2.0, n * (n + 1.0);
    var first, second, third := m * (2.0 * n + 1.0), c * n * (n + 1.0), n * c * c;
    var p := m * n;
    assert m * (n + 1.0) == p + m;
    assert second == c * m == (p + m) / 2.0;
    assert third == c * (c * n) && c * n == m / 2.0 && c * m == (p + m) / 2.0;
    assert first == 2.0 * p + m;
    assert n * (n * n - 1.0) == p - m;
    assert Cubic(n, c) == first / 6.0 - second + third;
  }

  /**
   The closed form: for two vectors of n >= 2 observations without ties the correlation is
   1 - 6 * (sum of the squared rank differences) / (n * (n * n - 1)).
   */
  lemma {:induction false} SpearmanWithoutTies(xs: seq<real>, ys: seq<real>, sqrt: real -> real)
    requires IsSqrt(sqrt) && |xs| == |ys| && |xs| >= 2 && TieFree(xs) && TieFree(ys)
    ensures var n := |xs| as real;
            SpearmanOf(xs, ys, sqrt) == Some(1.0 - 6.0 * SquaredDifferences(xs, ys, |xs|) / (n * (n * n - 1.0)))
  {
    hide RankMoment, SquaredDifferences, TieFree, IsSqrt, SpearmanOf;
    var n := |xs| as real;
    var v, sxy, d := n * (n * n - 1.0) / 12.0, RankMoment(xs, ys, |xs|), SquaredDifferences(xs, ys, |xs|);
    MomentWithoutTies(xs);
    MomentWithoutTies(ys);
    DifferencesSplit(xs, ys, |xs|);
    VarianceGrows(n);
    SameVariance(xs, ys, v, sqrt);
    QuotientIs(sxy, d, v);
  }

  lemma {:induction false} SameVariance(xs: seq<real>, ys: seq<real>, v: real, sqrt: real -> real)
    requires IsSqrt(sqrt) && |xs| == |ys| && |xs| >= 2 && v > 0.0
    requires RankMoment(xs, xs, |xs|) == v && RankMoment(ys, ys, |xs|) == v
    ensures SpearmanOf(xs, ys, sqrt) == Some(RankMoment(xs, ys, |xs|) / v)
  {
    hide RankMoment, IsSqrt, Comoment, RanksOf;
    ComomentIs(xs, xs);
    ComomentIs(ys, ys);
    ComomentIs(xs, ys);
    RootIsItself(sqrt, v);
  }

  lemma RootIsItself(sqrt: real -> real, v: real)
    requires IsSqrt(sqrt) && v > 0.0
    ensures sqrt(Times(v, v)) == v
  {
    RootOfProduct(sqrt, v, v);
    RootOfSquare(sqrt, v);
    var root := sqrt(Times(v, v));
    assert v / root == 1.0 && v / root * root == v;
  }

  lemma VarianceGrows(n: real)
    requires n >= 2.0
    ensures n * (n * n - 1.0) / 12.0 > 0.0
  {
    assert n * n >= 4.0;
    assert n * (n * n - 1.0) > 0.0;
  }

  lemma SignOfProduct(a: real, b: real)
    requires b > 0.0
    ensures a > 0.0 ==> a * b > 0.0
    ensures a < 0.0 ==> a * b < 0.0
  {
    if a < 0.0 {
      assert -a * b > 0.0;
    }
  }

  lemma QuotientIs(sxy: real, d: real, v: real)
    requires v > 0.0 && d == 2.0 * v - 2.0 * sxy
    ensures sxy / v == 1.0 - 6.0 * d / (12.0 * v)
  {
    var q, r := sxy / v, 6.0 * d / (12.0 * v);
    assert q * v == sxy && r * (12.0 * v) == 6.0 * d;
    assert (1.0 - q - r) * (12.0 * v) == 0.0;
    SignOfProduct(1.0 - q - r, 12.0 * v);
  }
}
