/** The replay gate: set F1, recall and the thresholds (src/bench.rs, metric 13). */
module Replay {
  import opened Totals

  /** The F1 of two token sets and the size of their intersection. */
  datatype Score = Score(f1: real, common: nat)

  /** The harmonic mean of precision and recall; zero when both are. */
  function Harmonic(p: real, r: real): real {
    if p + r > 0.0 then 2.0 * p * r / (p + r) else 0.0
  }

  function F1(surfaced: set<string>, expected: set<string>): Score {
    var common := |surfaced * expected|;
    if surfaced == {} || expected == {} then Score(0.0, common)
    else
      var p, r := common as real / |surfaced| as real, common as real / |expected| as real;
      Score(Harmonic(p, r), common)
  }

  datatype Result = Result(hit: bool, f1: real)

  /** One significant commit: hit when anything expected surfaced. */
  function Evaluate(surfaced: set<string>, expected: set<string>): Result {
    var score := F1(surfaced, expected);
    Result(score.common >= 1, score.f1)
  }

  datatype Thresholds = Thresholds(recall: real, f1: real, noise: real)

  datatype Report = Report(recall: real, f1: real, noise: real, thresholds: Thresholds)

  function HitWeight(r: Result): real { if r.hit then 1.0 else 0.0 }

  function F1Weight(r: Result): real { r.f1 }

  function NoiseWeight(nonempty: bool): real { if nonempty then 1.0 else 0.0 }

  function Share<T>(items: seq<T>, weight: T -> real): real {
    if items == [] then 0.0 else Total(items, weight) / |items| as real
  }

  function FromResults(significant: seq<Result>, noise: seq<bool>, thresholds: Thresholds): Report {
    Report(Share(significant, HitWeight), Share(significant, F1Weight), Share(noise, NoiseWeight), thresholds)
  }

  predicate Passed(r: Report) {
    r.recall >= r.thresholds.recall && r.f1 >= r.thresholds.f1 && r.noise <= r.thresholds.noise
  }

  // ---------------------------------------------------------------- F1

  lemma CommonFacts(s: set<string>, e: set<string>)
    ensures |s * e| <= |s| && |s * e| <= |e|
    ensures |s * e| == |s| <==> s <= e
    ensures |s * e| == |e| <==> e <= s
  {
    Subset(s * e, s);
    Subset(s * e, e);
    assert s <= e <==> s * e == s;
    assert e <= s <==> s * e == e;
  }

  lemma Subset(a: set<string>, b: set<string>)
    requires a <= b
    ensures |a| <= |b| && (|a| == |b| <==> a == b)
  {
    assert b == a + (b - a);
    assert |b| == |a| + |b - a|;
    assert |b - a| == 0 <==> b - a == {};
  }

  /** The harmonic mean of two shares of the same thing. */
  lemma HarmonicMean(c: real, m: real, n: real)
    requires c >= 0.0 && m > 0.0 && n > 0.0
    ensures Harmonic(c / m, c / n) == 2.0 * c / (m + n)
  {
    if c > 0.0 {
      PositiveMean(c, m, n);
    } else {
      assert c / m == 0.0 && c / n == 0.0;
    }
  }

  lemma PositiveMean(c: real, m: real, n: real)
    requires c > 0.0 && m > 0.0 && n > 0.0
    ensures Harmonic(c / m, c / n) == 2.0 * c / (m + n)
  {
    var p, r := c / m, c / n;
    assert p * m == c && r * n == c;
    assert p > 0.0 && r > 0.0;
    calc {
      2.0 * p * r * (m + n);
      2.0 * r * (p * m) + 2.0 * p * (r * n);
      2.0 * r * c + 2.0 * p * c;
      2.0 * c * (p + r);
    }
    CrossMultiply(2.0 * p * r, p + r, 2.0 * c, m + n);
  }

  lemma CrossMultiply(a: real, b: real, c: real, d: real)
    requires b > 0.0 && d > 0.0 && a * d == c * b
    ensures a / b == c / d
  {
    var u, v := a / b, c / d;
    assert u * b == a && v * d == c;
    assert (u - v) * (b * d) == (u * b) * d - (v * d) * b == 0.0;
    assert b * d > 0.0;
  }

  /** F1 is twice the common tokens over all tokens of both sides. */
  lemma F1IsDice(s: set<string>, e: set<string>)
    requires s != {} || e != {}
    ensures F1(s, e).f1 == 2.0 * |s * e| as real / (|s| + |e|) as real
  {
    hide Harmonic;
    var c := |s * e|;
    CommonFacts(s, e);
    if s != {} && e != {} {
      assert |s| > 0 && |e| > 0;
      HarmonicMean(c as real, |s| as real, |e| as real);
    } else {
      assert c == 0;
    }
  }

  lemma QuotientRange(p: real, n: real)
    requires n > 0.0 && 0.0 <= p <= n
    ensures 0.0 <= p / n <= 1.0
    ensures p / n == 1.0 <==> p == n
    ensures p / n > 0.0 <==> p > 0.0
  {
    var q := p / n;
    assert q * n == p;
  }

  /** F1 lies between 0 and 1, is 1 for equal non-empty sets only, and positive exactly when there is a hit. */
  lemma F1Range(s: set<string>, e: set<string>)
    ensures 0.0 <= F1(s, e).f1 <= 1.0
    ensures F1(s, e).f1 == 1.0 <==> s == e && s != {}
    ensures F1(s, e).f1 > 0.0 <==> s * e != {}
    ensures Evaluate(s, e).hit <==> s * e != {}
  {
    hide F1;
    CommonFacts(s, e);
    HitIsCommon(s, e);
    if s != {} || e != {} {
      F1IsDice(s, e);
      var c, n := 2.0 * |s * e| as real, (|s| + |e|) as real;
      assert c <= n;
      assert c == n <==> |s * e| == |s| && |s * e| == |e|;
      QuotientRange(c, n);
    } else {
      NothingExpected(s, e);
    }
  }

  lemma HitIsCommon(s: set<string>, e: set<string>)
    ensures Evaluate(s, e) == Result(s * e != {}, F1(s, e).f1)
  {
  }

  lemma NothingExpected(s: set<string>, e: set<string>)
    requires s == {} || e == {}
    ensures F1(s, e).f1 == 0.0
  {
  }

  lemma F1Symmetric(s: set<string>, e: set<string>)
    ensures F1(s, e) == F1(e, s)
  {
    hide F1;
    assert s * e == e * s;
    SameCommon(s, e);
    if s != {} || e != {} {
      F1IsDice(s, e);
      F1IsDice(e, s);
    }
  }

  lemma SameCommon(s: set<string>, e: set<string>)
    ensures F1(s, e).common == |s * e| && F1(e, s).common == |s * e|
    ensures s == {} && e == {} ==> F1(s, e).f1 == F1(e, s).f1
  {
    assert s * e == e * s;
  }

  // ---------------------------------------------------------------- the report

  /** A result that comes from comparing two token sets. */
  ghost predicate Evaluated(r: Result) {
    exists s: set<string>, e: set<string> :: r == Evaluate(s, e)
  }

  lemma EvaluatedFacts(r: Result)
    requires Evaluated(r)
    ensures 0.0 <= r.f1 <= HitWeight(r)
  {
    var s: set<string>, e: set<string> :| r == Evaluate(s, e);
    hide F1;
    HitIsCommon(s, e);
    F1Range(s, e);
  }

  lemma ShareMonotone(items: seq<Result>)
    requires forall r | r in items :: F1Weight(r) <= HitWeight(r)
    ensures Share(items, F1Weight) <= Share(items, HitWeight)
    ensures Share(items, F1Weight) == Share(items, HitWeight) <==> forall r | r in items :: r.f1 == HitWeight(r)
  {
    if items != [] {
      hide Total;
      var n := |items| as real;
      var a, b := Total(items, F1Weight), Total(items, HitWeight);
      TotalAtMost(items, F1Weight, HitWeight);
      if exists r | r in items :: r.f1 != HitWeight(r) {
        var r :| r in items && r.f1 != HitWeight(r);
        TotalLess(items, F1Weight, HitWeight, r);
      } else {
        TotalAgree(items, F1Weight, HitWeight);
      }
      QuotientOrder(a, b, n);
    }
  }

  /** The composition F1 never exceeds the recall; they agree exactly when every hit is a perfect match. */
  lemma CompositionBelowRecall(significant: seq<Result>, noise: seq<bool>, thresholds: Thresholds)
    requires forall r | r in significant :: Evaluated(r)
    ensures var report := FromResults(significant, noise, thresholds);
            report.f1 <= report.recall
            && (report.f1 == report.recall <==> forall r | r in significant && r.hit :: r.f1 == 1.0)
  {
    hide Share;
    forall r | r in significant ensures 0.0 <= r.f1 <= HitWeight(r) {
      EvaluatedFacts(r);
    }
    ShareMonotone(significant);
    assert (forall r | r in significant :: r.f1 == HitWeight(r)) <==> forall r | r in significant && r.hit :: r.f1 == 1.0;
  }

  /** A recall threshold that is not above the F1 threshold never decides the gate. */
  lemma RecallThresholdRedundant(significant: seq<Result>, noise: seq<bool>, thresholds: Thresholds)
    requires forall r | r in significant :: Evaluated(r)
    requires thresholds.recall <= thresholds.f1
    ensures var report := FromResults(significant, noise, thresholds);
            Passed(report) <==> report.f1 >= thresholds.f1 && report.noise <= thresholds.noise
  {
    hide Share;
    CompositionBelowRecall(significant, noise, thresholds);
  }

  // ---------------------------------------------------------------- the report, number by number

  /** Which of the results are hits. */
  function Hits(significant: seq<Result>): set<int> {
    set i | 0 <= i < |significant| && significant[i].hit
  }

  function Noisy(noise: seq<bool>): set<int> {
    set i | 0 <= i < |noise| && noise[i]
  }

  function SumOfF1(significant: seq<Result>): real {
    if significant == [] then 0.0 else significant[0].f1 + SumOfF1(significant[1..])
  }

  lemma {:induction false} HitsCounted(significant: seq<Result>)
    ensures Total(significant, HitWeight) == |Hits(significant)| as real
  {
    if significant == [] {
      assert Hits(significant) == {};
    } else {
      var n, init := |significant| - 1, significant[..|significant| - 1];
      HitsCounted(init);
      assert Hits(significant) == Hits(init) + if significant[n].hit then {n} else {};
    }
  }

  lemma {:induction false} NoisyCounted(noise: seq<bool>)
    ensures Total(noise, NoiseWeight) == |Noisy(noise)| as real
  {
    if noise == [] {
      assert Noisy(noise) == {};
    } else {
      var n, init := |noise| - 1, noise[..|noise| - 1];
      NoisyCounted(init);
      assert Noisy(noise) == Noisy(init) + if noise[n] then {n} else {};
    }
  }

  lemma {:induction false} F1Summed(significant: seq<Result>)
    ensures Total(significant, F1Weight) == SumOfF1(significant)
  {
    if significant != [] {
      F1Summed(significant[1..]);
      assert significant == [significant[0]] + significant[1..] && [significant[0]][..0] == [];
      TotalConcat([significant[0]], significant[1..], F1Weight);
      assert Total([significant[0]], F1Weight) == significant[0].f1;
    }
  }

  lemma {:induction false} ShareTimesCount<T>(items: seq<T>, weight: T -> real)
    ensures Share(items, weight) * |items| as real == Total(items, weight)
    ensures items == [] ==> Share(items, weight) == 0.0
  {
  }

  /** Each number of the report, times the commits it is averaged over; without commits it is zero. */
  lemma {:induction false} ReportIs(significant: seq<Result>, noise: seq<bool>, thresholds: Thresholds)
    ensures var r, n, m := FromResults(significant, noise, thresholds), |significant| as real, |noise| as real;
            && r.recall * n == |Hits(significant)| as real && r.f1 * n == SumOfF1(significant)
            && r.noise * m == |Noisy(noise)| as real && r.thresholds == thresholds
            && (significant == [] ==> r.recall == 0.0 && r.f1 == 0.0) && (noise == [] ==> r.noise == 0.0)
  {
    hide Share, Total;
    HitsCounted(significant);
    F1Summed(significant);
    NoisyCounted(noise);
    ShareTimesCount(significant, HitWeight);
    ShareTimesCount(significant, F1Weight);
    ShareTimesCount(noise, NoiseWeight);
  }

  lemma TimesPositive(a: real, b: real, n: real)
    requires n > 0.0
    ensures a >= b <==> a * n >= b * n
  {
    if a >= b {
      assert (a - b) * n >= 0.0;
    } else {
      assert (b - a) * n > 0.0;
    }
  }

  /** The gate, in whole commits: enough hits, enough F1 in total, and no more noise than allowed. */
  lemma {:induction false} GateIff(significant: seq<Result>, noise: seq<bool>, t: Thresholds)
    requires significant != [] && noise != []
    ensures var n, m := |significant| as real, |noise| as real;
            Passed(FromResults(significant, noise, t)) <==>
            |Hits(significant)| as real >= t.recall * n && SumOfF1(significant) >= t.f1 * n
            && |Noisy(noise)| as real <= t.noise * m
  {
    hide FromResults, Hits, Noisy, SumOfF1;
    ReportIs(significant, noise, t);
    var r, n, m := FromResults(significant, noise, t), |significant| as real, |noise| as real;
    TimesPositive(r.recall, t.recall, n);
    TimesPositive(r.f1, t.f1, n);
    TimesPositive(t.noise, r.noise, m);
  }
}
