/** Spearman and Pearson correlation over the reals (src/bench.rs). */
module Correlation {
  import opened Wrappers
  import opened Totals
  import opened Ranks

  /** What the square root of the host language is taken to be. */
  ghost predicate IsSqrt(sqrt: real -> real) {
    forall x | x >= 0.0 :: sqrt(x) >= 0.0 && sqrt(x) * sqrt(x) == x
  }

  /** The product, named so that proofs can treat it as a black box. */
  function Times(x: real, y: real): real { x * y }

  function Mean(xs: seq<real>): real {
    if xs == [] then 0.0 else Total(xs, Itself) / |xs| as real
  }

  function Deviations(xs: seq<real>): seq<real> {
    seq(|xs|, k requires 0 <= k < |xs| => xs[k] - Mean(xs))
  }

  function Dot(a: seq<real>, b: seq<real>): real
    requires |a| == |b|
  {
    if a == [] then 0.0 else Dot(a[..|a| - 1], b[..|b| - 1]) + Times(a[|a| - 1], b[|b| - 1])
  }

  lemma DotEmpty()
    ensures Dot([], []) == 0.0
  {
  }

  lemma {:induction false} DotExtend(a: seq<real>, b: seq<real>, x: real, y: real)
    requires |a| == |b|
    ensures Dot(a + [x], b + [y]) == Dot(a, b) + Times(x, y)
  {
    hide Times;
    assert (a + [x])[..|a|] == a && (b + [y])[..|b|] == b;
  }

  /** The sum of the products of the deviations. */
  function Comoment(xs: seq<real>, ys: seq<real>): real
    requires |xs| == |ys|
  {
    Dot(Deviations(xs), Deviations(ys))
  }

  function Normalized(sxy: real, sxx: real, syy: real, sqrt: real -> real): real
    requires IsSqrt(sqrt) && sxx > 0.0 && syy > 0.0
  {
    RootOfProduct(sqrt, sxx, syy);
    sxy / sqrt(Times(sxx, syy))
  }

  function PearsonOf(xs: seq<real>, ys: seq<real>, sqrt: real -> real): (r: Option<real>)
    requires |xs| == |ys| && IsSqrt(sqrt)
  {
    var sxx, syy := Comoment(xs, xs), Comoment(ys, ys);
    if sxx <= 0.0 || syy <= 0.0 then None
    else
      Some(Normalized(Comoment(xs, ys), sxx, syy, sqrt))
  }

  function SpearmanOf(xs: seq<real>, ys: seq<real>, sqrt: real -> real): Option<real>
    requires IsSqrt(sqrt)
  {
    if |xs| < 2 || |xs| != |ys| then None else PearsonOf(RanksOf(xs), RanksOf(ys), sqrt)
  }

  method Pearson(xs: seq<real>, ys: seq<real>, sqrt: real -> real) returns (r: Option<real>)
    requires |xs| == |ys| && IsSqrt(sqrt)
    ensures r == PearsonOf(xs, ys, sqrt)
  {
    hide Mean, Dot;
    var meanX, meanY := Mean(xs), Mean(ys);
    var sxy, sxx, syy := 0.0, 0.0, 0.0;
    ghost var dxs, dys := Deviations(xs), Deviations(ys);
    DotEmpty();
    for k := 0 to |xs|
      invariant sxy == Dot(dxs[..k], dys[..k])
      invariant sxx == Dot(dxs[..k], dxs[..k])
      invariant syy == Dot(dys[..k], dys[..k])
    {
      var dx, dy := xs[k] - meanX, ys[k] - meanY;
      assert dxs[..k + 1] == dxs[..k] + [dx] && dys[..k + 1] == dys[..k] + [dy];
      DotExtend(dxs[..k], dys[..k], dx, dy);
      DotExtend(dxs[..k], dxs[..k], dx, dx);
      DotExtend(dys[..k], dys[..k], dy, dy);
      sxy := sxy + dx * dy;
      sxx := sxx + dx * dx;
      syy := syy + dy * dy;
    }
    assert dxs[..|xs|] == dxs && dys[..|xs|] == dys;
    assert sxy == Comoment(xs, ys) && sxx == Comoment(xs, xs) && syy == Comoment(ys, ys);
    hide Comoment;
    if sxx <= 0.0 || syy <= 0.0 {
      return None;
    }
    hide Normalized;
    r := Some(Normalized(sxy, sxx, syy, sqrt));
  }

  method Spearman(xs: seq<real>, ys: seq<real>, sqrt: real -> real) returns (r: Option<real>)
    requires IsSqrt(sqrt)
    ensures r == SpearmanOf(xs, ys, sqrt)
  {
    if |xs| < 2 || |xs| != |ys| {
      return None;
    }
    var rx := AverageRanks(xs);
    var ry := AverageRanks(ys);
    r := Pearson(rx, ry, sqrt);
  }

  lemma RootOfProduct(sqrt: real -> real, a: real, b: real)
    requires IsSqrt(sqrt) && a > 0.0 && b > 0.0
    ensures Times(a, b) > 0.0
    ensures sqrt(Times(a, b)) > 0.0
    ensures Times(sqrt(Times(a, b)), sqrt(Times(a, b))) == Times(a, b)
  {
    PositiveProduct(a, b);
    RootIsPositive(sqrt, Times(a, b));
  }

  lemma RootIsPositive(sqrt: real -> real, product: real)
    requires IsSqrt(sqrt) && product > 0.0
    ensures sqrt(product) > 0.0 && Times(sqrt(product), sqrt(product)) == product
  {
    var root := sqrt(product);
    assert root >= 0.0 && root * root == product;
    assert root == 0.0 ==> root * root == 0.0;
  }

  lemma PositiveProduct(a: real, b: real)
    requires a > 0.0 && b > 0.0
    ensures Times(a, b) > 0.0
  {
    assert a * b > 0.0;
  }

  // ---------------------------------------------------------------- Cauchy-Schwarz

  lemma {:induction false} DotSymmetric(a: seq<real>, b: seq<real>)
    requires |a| == |b|
    ensures Dot(a, b) == Dot(b, a)
  {
    if a != [] {
      DotSymmetric(a[..|a| - 1], b[..|b| - 1]);
    }
  }

  lemma Square(x: real)
    ensures x != 0.0 ==> Times(x, x) > 0.0
    ensures x == 0.0 ==> Times(x, x) == 0.0
  {
    hide Times;
    if x < 0.0 {
      SquareOfNegative(x);
    } else if x > 0.0 {
      SquareOfPositive(x);
    } else {
      SquareOfZero();
    }
  }

  lemma SquareOfNegative(x: real)
    requires x < 0.0
    ensures Times(x, x) > 0.0
  {
    SquareOfPositive(-x);
    assert Times(-x, -x) == (-x) * (-x) == x * x == Times(x, x);
  }

  lemma SquareOfPositive(x: real)
    requires x > 0.0
    ensures Times(x, x) > 0.0
  {
    calc {
      0.0;
    <
      x * x;
      Times(x, x);
    }
  }

  lemma SquareOfZero()
    ensures Times(0.0, 0.0) == 0.0
  {
  }

  /** A sum of squares is never negative, and zero only for zeros. */
  lemma {:induction false} SquaresPositive(a: seq<real>)
    ensures Dot(a, a) >= 0.0
    ensures Dot(a, a) == 0.0 <==> forall k | 0 <= k < |a| :: a[k] == 0.0
  {
    if a != [] {
      hide Times;
      var init, x := a[..|a| - 1], a[|a| - 1];
      SquaresPositive(init);
      Square(x);
      assert forall k | 0 <= k < |init| :: a[k] == init[k];
    }
  }

  function Rest(t: real, x: real, y: real): real { y - t * x }

  /** `b - t * a`, place by place. */
  function Residual(a: seq<real>, b: seq<real>, t: real): seq<real>
    requires |a| == |b|
  {
    seq(|a|, k requires 0 <= k < |a| => Rest(t, a[k], b[k]))
  }

  function Quadratic(t: real, aa: real, ab: real, bb: real): real {
    bb - 2.0 * t * ab + t * t * aa
  }

  lemma ExpandStep(t: real, aa: real, ab: real, bb: real, x: real, y: real)
    ensures Quadratic(t, aa, ab, bb) + Times(Rest(t, x, y), Rest(t, x, y))
         == Quadratic(t, aa + Times(x, x), ab + Times(x, y), bb + Times(y, y))
  {
    calc {
      (y - t * x) * (y - t * x);
      y * y - y * (t * x) - (t * x) * y + (t * x) * (t * x);
      y * y - 2.0 * (t * (x * y)) + (t * t) * (x * x);
    }
    assert 2.0 * t * (ab + x * y) == 2.0 * t * ab + 2.0 * (t * (x * y));
    assert t * t * (aa + x * x) == t * t * aa + (t * t) * (x * x);
  }

  lemma ResidualExtend(a: seq<real>, b: seq<real>, t: real, x: real, y: real)
    requires |a| == |b|
    ensures |Residual(a, b, t)| == |a|
    ensures Residual(a + [x], b + [y], t) == Residual(a, b, t) + [Rest(t, x, y)]
  {
    hide Rest;
  }

  lemma {:induction false} ResidualSquares(a: seq<real>, b: seq<real>, t: real)
    requires |a| == |b|
    ensures Dot(Residual(a, b, t), Residual(a, b, t)) == Quadratic(t, Dot(a, a), Dot(a, b), Dot(b, b))
  {
    if a == [] {
      assert Residual(a, b, t) == [];
    } else {
      hide Dot, Rest, Residual, Times, Quadratic;
      var a0, b0 := a[..|a| - 1], b[..|b| - 1];
      var x, y := a[|a| - 1], b[|b| - 1];
      ResidualSquares(a0, b0, t);
      assert a == a0 + [x] && b == b0 + [y];
      ResidualExtend(a0, b0, t, x, y);
      DotExtend(Residual(a0, b0, t), Residual(a0, b0, t), Rest(t, x, y), Rest(t, x, y));
      DotExtend(a0, a0, x, x);
      DotExtend(a0, b0, x, y);
      DotExtend(b0, b0, y, y);
      ExpandStep(t, Dot(a0, a0), Dot(a0, b0), Dot(b0, b0), x, y);
    }
  }

  /** With `t` the slope of the regression, the residual accounts for the gap in the inequality. */
  lemma Gap(aa: real, ab: real, bb: real, t: real)
    requires aa > 0.0 && t == ab / aa
    ensures Times(aa, Quadratic(t, aa, ab, bb)) == Times(aa, bb) - Times(ab, ab)
  {
    assert t * aa == ab;
    calc {
      aa * (bb - 2.0 * t * ab + t * t * aa);
      aa * bb - 2.0 * (t * aa) * ab + (t * aa) * (t * aa);
      aa * bb - 2.0 * ab * ab + ab * ab;
    }
  }

  /** The squared sum of products never exceeds the product of the sums of squares; equality means proportional. */
  lemma {:induction false} CauchySchwarz(a: seq<real>, b: seq<real>)
    requires |a| == |b| && Dot(a, a) > 0.0
    ensures Times(Dot(a, b), Dot(a, b)) <= Times(Dot(a, a), Dot(b, b))
    ensures Times(Dot(a, b), Dot(a, b)) == Times(Dot(a, a), Dot(b, b)) <==>
            forall k | 0 <= k < |a| :: b[k] == Dot(a, b) / Dot(a, a) * a[k]
  {
    hide Dot, Quadratic, Times;
    var aa, ab, bb := Dot(a, a), Dot(a, b), Dot(b, b);
    var t := ab / aa;
    var r := Residual(a, b, t);
    ResidualSquares(a, b, t);
    SquaresPositive(r);
    Gap(aa, ab, bb, t);
    GapSign(aa, Dot(r, r));
    assert forall k | 0 <= k < |a| :: r[k] == Rest(t, a[k], b[k]);
  }

  lemma GapSign(aa: real, gap: real)
    requires aa > 0.0 && gap >= 0.0
    ensures gap > 0.0 ==> Times(aa, gap) > 0.0
    ensures gap == 0.0 ==> Times(aa, gap) == 0.0
  {
    if gap > 0.0 {
      PositiveProduct(aa, gap);
    }
  }

  // ---------------------------------------------------------------- when it is defined

  predicate Constant(xs: seq<real>) {
    forall i, j | 0 <= i < |xs| && 0 <= j < |xs| :: xs[i] == xs[j]
  }

  /** The deviations are all zero exactly for constant vectors. */
  lemma ZeroDeviations(xs: seq<real>)
    ensures Comoment(xs, xs) >= 0.0
    ensures Comoment(xs, xs) == 0.0 <==> Constant(xs)
  {
    var ds := Deviations(xs);
    SquaresPositive(ds);
    if Constant(xs) && xs != [] {
      TotalConstant(xs, Itself, xs[0]);
      assert Mean(xs) == xs[0];
    }
    if forall k | 0 <= k < |xs| :: ds[k] == 0.0 {
      assert forall k | 0 <= k < |xs| :: xs[k] == ds[k] + Mean(xs);
    }
  }

  lemma RanksConstant(xs: seq<real>)
    ensures Constant(RanksOf(xs)) <==> Constant(xs)
  {
    hide Rank;
    forall i, j | 0 <= i < |xs| && 0 <= j < |xs|
      ensures RanksOf(xs)[i] == RanksOf(xs)[j] <==> xs[i] == xs[j]
    {
      RankMonotone(xs, xs[i], xs[j]);
    }
  }

  /** Defined for two vectors of one length, at least two observations each, neither constant; and only then. */
  lemma SpearmanDefined(xs: seq<real>, ys: seq<real>, sqrt: real -> real)
    requires IsSqrt(sqrt)
    ensures SpearmanOf(xs, ys, sqrt).Some? <==>
            |xs| == |ys| && |xs| >= 2 && !Constant(xs) && !Constant(ys)
  {
    hide Comoment, RanksOf, Constant;
    if |xs| == |ys| && |xs| >= 2 {
      ZeroDeviations(RanksOf(xs));
      ZeroDeviations(RanksOf(ys));
      RanksConstant(xs);
      RanksConstant(ys);
    }
  }

  // ---------------------------------------------------------------- what it is worth

  lemma ComomentSymmetric(xs: seq<real>, ys: seq<real>)
    requires |xs| == |ys|
    ensures Comoment(xs, ys) == Comoment(ys, xs)
  {
    DotSymmetric(Deviations(xs), Deviations(ys));
  }

  lemma SquareGrows(x: real, y: real)
    requires 0.0 < y < x
    ensures Times(y, y) < Times(x, x) && Times(y, y) < Times(-x, -x)
  {
    calc {
      y * y;
    <
      y * y + (x - y) * (x + y);
      x * x;
      (-x) * (-x);
    }
  }

  /** A quotient whose square is at most one. */
  lemma QuotientBounded(ab: real, root: real)
    requires root > 0.0 && Times(ab, ab) <= Times(root, root)
    ensures -1.0 <= ab / root <= 1.0
  {
    hide Times;
    if ab > root {
      SquareGrows(ab, root);
    } else if -ab > root {
      SquareGrows(-ab, root);
    }
    assert -root <= ab <= root;
    var q := ab / root;
    assert q * root == ab;
    assert (1.0 - q) * root >= 0.0 && (1.0 + q) * root >= 0.0;
  }

  lemma PearsonBounded(xs: seq<real>, ys: seq<real>, sqrt: real -> real)
    requires |xs| == |ys| && IsSqrt(sqrt)
    ensures PearsonOf(xs, ys, sqrt).Some? ==> -1.0 <= PearsonOf(xs, ys, sqrt).value <= 1.0
  {
    hide Dot, Times;
    var sxx, sxy, syy := Comoment(xs, xs), Comoment(xs, ys), Comoment(ys, ys);
    if sxx > 0.0 && syy > 0.0 {
      CauchySchwarz(Deviations(xs), Deviations(ys));
      RootOfProduct(sqrt, sxx, syy);
      QuotientBounded(sxy, sqrt(Times(sxx, syy)));
    }
  }

  /** A correlation lies between -1 and 1. */
  lemma SpearmanBounded(xs: seq<real>, ys: seq<real>, sqrt: real -> real)
    requires IsSqrt(sqrt)
    ensures SpearmanOf(xs, ys, sqrt).Some? ==> -1.0 <= SpearmanOf(xs, ys, sqrt).value <= 1.0
  {
    if |xs| == |ys| {
      PearsonBounded(RanksOf(xs), RanksOf(ys), sqrt);
    }
  }

  lemma SpearmanSymmetric(xs: seq<real>, ys: seq<real>, sqrt: real -> real)
    requires IsSqrt(sqrt)
    ensures SpearmanOf(xs, ys, sqrt) == SpearmanOf(ys, xs, sqrt)
  {
    hide Comoment, RanksOf;
    if |xs| == |ys| {
      var rx, ry := RanksOf(xs), RanksOf(ys);
      ComomentSymmetric(rx, ry);
      assert Times(Comoment(rx, rx), Comoment(ry, ry)) == Times(Comoment(ry, ry), Comoment(rx, rx));
    }
  }

  /** Only the order of the observations matters: any strictly increasing transform of either vector keeps the result. */
  lemma SpearmanSeesOrder(xs: seq<real>, xs2: seq<real>, ys: seq<real>, ys2: seq<real>, sqrt: real -> real)
    requires IsSqrt(sqrt) && SameOrder(xs, xs2) && SameOrder(ys, ys2)
    ensures SpearmanOf(xs, ys, sqrt) == SpearmanOf(xs2, ys2, sqrt)
  {
    RanksAreTheOrder(xs, xs2);
    RanksAreTheOrder(ys, ys2);
  }

  function Negated(r: Option<real>): Option<real> {
    if r.None? then None else Some(-r.value)
  }

  /** Reversing the order of one vector, by negation or any strictly decreasing transform, negates the result. */
  lemma SpearmanNegates(xs: seq<real>, xs2: seq<real>, ys: seq<real>, sqrt: real -> real)
    requires IsSqrt(sqrt) && OppositeOrder(xs, xs2)
    ensures SpearmanOf(xs2, ys, sqrt) == Negated(SpearmanOf(xs, ys, sqrt))
  {
    hide Comoment, RanksOf;
    if |xs| >= 2 && |xs| == |ys| {
      var rx, rx2, ry := RanksOf(xs), RanksOf(xs2), RanksOf(ys);
      ReversedDeviations(xs, xs2);
      ReversedMoments(rx, rx2, ry);
      hide Normalized;
      var sxx, sxy, syy := Comoment(rx, rx), Comoment(rx, ry), Comoment(ry, ry);
      if sxx > 0.0 && syy > 0.0 {
        NormalizedNegates(sxy, sxx, syy, sqrt);
      }
    }
  }

  lemma NormalizedNegates(sxy: real, sxx: real, syy: real, sqrt: real -> real)
    requires IsSqrt(sqrt) && sxx > 0.0 && syy > 0.0
    ensures Normalized(-sxy, sxx, syy, sqrt) == -Normalized(sxy, sxx, syy, sqrt)
  {
    RootOfProduct(sqrt, sxx, syy);
    NegatedQuotient(sxy, sqrt(Times(sxx, syy)));
  }

  lemma ReversedDeviations(xs: seq<real>, xs2: seq<real>)
    requires OppositeOrder(xs, xs2)
    ensures var ds, ds2 := Deviations(RanksOf(xs)), Deviations(RanksOf(xs2));
            forall k | 0 <= k < |xs| :: ds2[k] == -ds[k]
  {
    hide Rank;
    if xs != [] {
      var rx, rx2, top := RanksOf(xs), RanksOf(xs2), (|xs| + 1) as real;
      forall k | 0 <= k < |xs| ensures rx[k] + rx2[k] == top {
        OppositeRank(xs, xs2, k);
      }
      TotalsTogether(rx, rx2, Itself, Itself, top);
      MeansTogether(rx, rx2, top);
    }
  }

  lemma {:induction false} MeansTogether(a: seq<real>, b: seq<real>, top: real)
    requires a != [] && |a| == |b| && Total(a, Itself) + Total(b, Itself) == |a| as real * top
    ensures Mean(a) + Mean(b) == top
  {
    QuotientSum(Total(a, Itself), Total(b, Itself), |a| as real, top);
  }

  lemma QuotientSum(p: real, q: real, n: real, top: real)
    requires n > 0.0 && p + q == n * top
    ensures p / n + q / n == top
  {
    var u, v := p / n, q / n;
    assert u * n == p && v * n == q;
    assert (u + v) * n == top * n;
    Cancel(u + v, top, n);
  }

  lemma Cancel(x: real, y: real, n: real)
    requires n > 0.0 && x * n == y * n
    ensures x == y
  {
    var d := x - y;
    assert d * n == 0.0;
    if d > 0.0 {
      PositiveProduct(d, n);
    } else if d < 0.0 {
      PositiveProduct(-d, n);
      assert (-d) * n == -(d * n);
    }
  }

  lemma NegatedQuotient(p: real, n: real)
    requires n > 0.0
    ensures (-p) / n == -(p / n)
  {
    var u, v := p / n, (-p) / n;
    assert u * n == p && v * n == -p;
    assert (-u) * n == -(u * n);
    Cancel(v, -u, n);
  }

  lemma ReversedMoments(rx: seq<real>, rx2: seq<real>, ry: seq<real>)
    requires |rx| == |rx2| == |ry|
    requires forall k | 0 <= k < |rx| :: Deviations(rx2)[k] == -Deviations(rx)[k]
    ensures Comoment(rx2, rx2) == Comoment(rx, rx)
    ensures Comoment(rx2, ry) == -Comoment(rx, ry)
  {
    var ds, ds2 := Deviations(rx), Deviations(rx2);
    DotNegated(ds, ds2, Deviations(ry));
    DotNegated(ds, ds2, ds);
    DotNegated(ds, ds2, ds2);
    DotSymmetric(ds, ds2);
  }

  lemma {:induction false} DotNegated(a: seq<real>, na: seq<real>, b: seq<real>)
    requires |a| == |na| == |b|
    requires forall k | 0 <= k < |a| :: na[k] == -a[k]
    ensures Dot(na, b) == -Dot(a, b)
  {
    if a != [] {
      DotNegated(a[..|a| - 1], na[..|a| - 1], b[..|b| - 1]);
      var x, y := a[|a| - 1], b[|b| - 1];
      assert Times(-x, y) == -Times(x, y);
    }
  }

  // ---------------------------------------------------------------- when it is extreme

  lemma RootOfSquare(sqrt: real -> real, s: real)
    requires IsSqrt(sqrt) && s > 0.0
    ensures Normalized(s, s, s, sqrt) == 1.0
  {
    RootOfProduct(sqrt, s, s);
    var root := sqrt(Times(s, s));
    hide Times;
    if root < s {
      SquareGrows(s, root);
    } else if s < root {
      SquareGrows(root, s);
    }
  }

  lemma QuotientOne(p: real, n: real)
    requires n > 0.0 && p / n == 1.0
    ensures p == n
  {
    assert p / n * n == p;
  }

  lemma PositiveSlope(t: real, x: real, y: real)
    requires t > 0.0
    ensures x < y <==> t * x < t * y
  {
    if x < y {
      assert t * (y - x) > 0.0;
    } else if y < x {
      assert t * (x - y) > 0.0;
    }
  }

  lemma PositiveQuotient(p: real, n: real)
    requires p > 0.0 && n > 0.0
    ensures p / n > 0.0
  {
  }

  /** A full correlation of two vectors makes one an increasing function of the other. */
  lemma FullCorrelationOrders(rx: seq<real>, ry: seq<real>, sqrt: real -> real)
    requires |rx| == |ry| && IsSqrt(sqrt) && PearsonOf(rx, ry, sqrt) == Some(1.0)
    ensures SameOrder(rx, ry)
  {
    hide Times, Dot;
    var dx, dy := Deviations(rx), Deviations(ry);
    var sxx, sxy, syy := Dot(dx, dx), Dot(dx, dy), Dot(dy, dy);
    RootOfProduct(sqrt, sxx, syy);
    QuotientOne(sxy, sqrt(Times(sxx, syy)));
    CauchySchwarz(dx, dy);
    var t := sxy / sxx;
    PositiveQuotient(sxy, sxx);
    forall i, j | 0 <= i < |rx| && 0 <= j < |rx| ensures rx[i] < rx[j] <==> ry[i] < ry[j] {
      assert dy[i] == t * dx[i] && dy[j] == t * dx[j];
      PositiveSlope(t, dx[i], dx[j]);
      assert rx[i] == dx[i] + Mean(rx) && rx[j] == dx[j] + Mean(rx);
      assert ry[i] == dy[i] + Mean(ry) && ry[j] == dy[j] + Mean(ry);
    }
  }

  /** The correlation is 1 exactly when both vectors order the observations in the same way and tell some apart. */
  lemma SpearmanOne(xs: seq<real>, ys: seq<real>, sqrt: real -> real)
    requires IsSqrt(sqrt)
    ensures SpearmanOf(xs, ys, sqrt) == Some(1.0) <==> |xs| >= 2 && !Constant(xs) && SameOrder(xs, ys)
  {
    hide PearsonOf, RanksOf, Rank;
    SpearmanDefined(xs, ys, sqrt);
    if SpearmanOf(xs, ys, sqrt) == Some(1.0) {
      FullCorrelationOrders(RanksOf(xs), RanksOf(ys), sqrt);
      RanksOrderAlike(xs, ys);
    }
    if |xs| >= 2 && !Constant(xs) && SameOrder(xs, ys) {
      RanksAreTheOrder(xs, ys);
      SelfCorrelation(xs, sqrt);
    }
  }

  lemma RanksOrderAlike(xs: seq<real>, ys: seq<real>)
    requires SameOrder(RanksOf(xs), RanksOf(ys))
    ensures SameOrder(xs, ys)
  {
    hide Rank;
    forall i, j | 0 <= i < |xs| && 0 <= j < |xs| ensures xs[i] < xs[j] <==> ys[i] < ys[j] {
      RankMonotone(xs, xs[i], xs[j]);
      RankMonotone(ys, ys[i], ys[j]);
      assert RanksOf(xs)[i] < RanksOf(xs)[j] <==> RanksOf(ys)[i] < RanksOf(ys)[j];
    }
  }

  lemma SelfCorrelation(xs: seq<real>, sqrt: real -> real)
    requires IsSqrt(sqrt) && !Constant(xs)
    ensures PearsonOf(RanksOf(xs), RanksOf(xs), sqrt) == Some(1.0)
  {
    hide Comoment, RanksOf, Constant, Normalized;
    RanksConstant(xs);
    ZeroDeviations(RanksOf(xs));
    RootOfSquare(sqrt, Comoment(RanksOf(xs), RanksOf(xs)));
  }

  /** It is -1 exactly when they order the observations in opposite ways. */
  lemma SpearmanMinusOne(xs: seq<real>, ys: seq<real>, sqrt: real -> real)
    requires IsSqrt(sqrt)
    ensures SpearmanOf(xs, ys, sqrt) == Some(-1.0) <==> |xs| >= 2 && !Constant(xs) && OppositeOrder(xs, ys)
  {
    hide SpearmanOf;
    var neg := seq(|xs|, k requires 0 <= k < |xs| => -xs[k]);
    assert forall k | 0 <= k < |xs| :: neg[k] == -xs[k];
    SpearmanNegates(xs, neg, ys, sqrt);
    SpearmanOne(neg, ys, sqrt);
    assert Constant(neg) <==> Constant(xs) by {
      assert Constant(neg) ==> forall i, j | 0 <= i < |xs| && 0 <= j < |xs| :: neg[i] == neg[j];
    }
  }
}
