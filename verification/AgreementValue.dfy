/** What the agreement report says, told from the questionnaires alone. */
module AgreementValue {
  import opened Wrappers
  import opened Totals
  import opened Agreement

  // ---------------------------------------------------------------- the median

  lemma {:induction false} SortedUnique(a: seq<real>, b: seq<real>)
    requires SortedBy(a, Itself) && SortedBy(b, Itself) && multiset(a) == multiset(b)
    ensures a == b
    decreases |a|
  {
    hide SortedBy;
    assert |multiset(a)| == |multiset(b)|;
    if a != [] {
      ButLast(a);
      ButLast(b);
      SameLast(a, b);
      SortedUnique(a[..|a| - 1], b[..|b| - 1]);
    }
  }

  lemma SameLast(a: seq<real>, b: seq<real>)
    requires SortedBy(a, Itself) && SortedBy(b, Itself) && multiset(a) == multiset(b) && a != [] && b != []
    ensures a[|a| - 1] == b[|b| - 1]
  {
    hide SortedBy;
    ButLast(a);
    ButLast(b);
    LastIsLargest(a, b[|b| - 1]);
    LastIsLargest(b, a[|a| - 1]);
  }

  lemma ButLast(s: seq<real>)
    requires s != [] && SortedBy(s, Itself)
    ensures var init, last := s[..|s| - 1], s[|s| - 1];
            && s == init + [last] && SortedBy(init, Itself)
            && last in multiset(s) && multiset(init) == multiset(s) - multiset{last}
  {
    assert s == s[..|s| - 1] + [s[|s| - 1]];
  }

  lemma LastIsLargest(s: seq<real>, x: real)
    requires SortedBy(s, Itself) && x in multiset(s)
    ensures s != [] && x <= s[|s| - 1]
  {
    var i :| 0 <= i < |s| && s[i] == x;
    assert i < |s| - 1 ==> Itself(s[i]) <= Itself(s[|s| - 1]);
  }

  /** The median of a sample is the mean of its two middle values, which are one for an odd sample. */
  lemma MedianIs(xs: seq<real>, sorted: seq<real>)
    requires xs != [] && SortedBy(sorted, Itself) && multiset(sorted) == multiset(xs)
    ensures |sorted| == |xs|
    ensures Median(xs) == Some((sorted[(|xs| - 1) / 2] + sorted[|xs| / 2]) / 2.0)
  {
    assert |multiset(sorted)| == |multiset(xs)|;
    SortedUnique(SortBy(xs, Itself), sorted);
  }

  // ---------------------------------------------------------------- sums over the questionnaires

  /** All scores that the humans of a document gave for one criterion, in the order of the questionnaires. */
  function Scores(forms: seq<Form>, k: nat): seq<real>
    requires forall f | f in forms :: k in f
  {
    if forms == [] then []
    else Scores(forms[..|forms| - 1], k) + [forms[|forms| - 1][k].rounded]
  }

  predicate Answers(c: Case) {
    forall f, k: nat | f in c.forms && k < |c.golden| :: k in f
  }

  /** The human median of a criterion, 0 without humans. */
  function HumanMedian(c: Case, k: nat): real
    requires Answers(c) && k < |c.golden|
  {
    var m := Median(Scores(c.forms, k));
    if m.None? then 0.0 else m.value
  }

  /** How far the golden scores of the first `n` criteria are from the human medians. */
  function GoldenDistance(c: Case, n: nat): real
    requires Answers(c) && n <= |c.golden|
  {
    if n == 0 then 0.0 else GoldenDistance(c, n - 1) + Abs(c.golden[n - 1] - HumanMedian(c, n - 1))
  }

  /** How far the human scores of the first `n` criteria are from their medians. */
  function HumanDistance(c: Case, n: nat): real
    requires Answers(c) && n <= |c.golden|
  {
    if n == 0 then 0.0
    else HumanDistance(c, n - 1) + Total(Scores(c.forms, n - 1), Distance(HumanMedian(c, n - 1)))
  }

  /** A sum over the documents that have questionnaires. */
  function SumCompared(cases: seq<Case>, f: Case -> real): real {
    if cases == [] then 0.0
    else
      var last := cases[|cases| - 1];
      SumCompared(cases[..|cases| - 1], f) + if last.forms == [] then 0.0 else f(last)
  }

  function CriteriaOf(c: Case): real { |c.golden| as real }

  function ScoresOf(c: Case): real { (|c.golden| * |c.forms|) as real }

  function GoldenDistanceOf(c: Case): real { if Answers(c) then GoldenDistance(c, |c.golden|) else 0.0 }

  function HumanDistanceOf(c: Case): real { if Answers(c) then HumanDistance(c, |c.golden|) else 0.0 }

  // ---------------------------------------------------------------- rows and columns

  lemma AcceptableAnswers(c: Case)
    requires AllAcceptable(c)
    ensures Answers(c)
  {
    forall f, k: nat | f in c.forms && k < |c.golden| ensures k in f {
      assert Acceptable(f, |c.golden|);
    }
  }

  /** The scores of a criterion are the column of the reduced questionnaires. */
  lemma {:induction false} ScoresAreColumn(forms: seq<Form>, n: nat, k: nat)
    requires RowsOf(forms, n).Rows? && k < n && forall f | f in forms :: k in f
    ensures forall h | h in RowsOf(forms, n).rows :: k < |h|
    ensures Column(RowsOf(forms, n).rows, k) == Scores(forms, k)
  {
    RowsAreComplete(forms, n);
    if forms != [] {
      var init := forms[..|forms| - 1];
      RowsAreComplete(init, n);
      ScoresAreColumn(init, n, k);
      var rows, row := RowsOf(init, n).rows, seq(n, c requires 0 <= c < n => forms[|forms| - 1][c].rounded);
      assert RowsOf(forms, n).rows == rows + [row];
      assert Column(rows + [row], k) == Column(rows, k) + [row[k]];
    }
  }

  /** One document of the report against its case. */
  ghost predicate Reduced(c: Case, d: Doc) {
    && c.forms != [] && Answers(c) && |d.humans| == |c.forms| && d.golden == c.golden && Scored(d)
    && forall k: nat | k < |c.golden| :: Column(d.humans, k) == Scores(c.forms, k)
  }

  lemma ReducedCase(c: Case)
    requires AllAcceptable(c) && c.forms != []
    ensures RowsOf(c.forms, |c.golden|).Rows? && RowsOf(c.forms, |c.golden|).rows != []
    ensures var rows := RowsOf(c.forms, |c.golden|).rows;
            (forall h | h in rows :: |c.golden| <= |h|) && Reduced(c, Doc(c.golden, Medians(rows, |c.golden|), rows))
  {
    hide Median, Acceptable;
    RowsIff(c.forms, |c.golden|);
    RowsAreComplete(c.forms, |c.golden|);
    AcceptableAnswers(c);
    var rows := RowsOf(c.forms, |c.golden|).rows;
    MediansAreMedians(rows, c.golden);
    hide RowsOf, Scored;
    forall k: nat | k < |c.golden| ensures Column(rows, k) == Scores(c.forms, k) {
      ScoresAreColumn(c.forms, |c.golden|, k);
    }
  }

  lemma {:induction false} GoldenRow(golden: seq<real>, medians: seq<real>, n: nat)
    requires n < |golden| && n < |medians|
    ensures Total(RowPairs(golden, medians[..n + 1]), Miss)
         == Total(RowPairs(golden, medians[..n]), Miss) + Abs(golden[n] - medians[n])
  {
    hide RowPairs;
    RowTotal(golden, medians, n);
  }

  lemma MedianOfColumn(c: Case, d: Doc, k: nat)
    requires Reduced(c, d) && k < |c.golden|
    ensures |d.medians| == |c.golden| && d.medians[k] == HumanMedian(c, k)
  {
    hide Median;
    ScoredShape(d);
  }

  lemma {:induction false} GoldenPairsSum(c: Case, d: Doc, n: nat)
    requires Reduced(c, d) && n <= |c.golden| == |d.medians|
    ensures Total(RowPairs(d.golden, d.medians[..n]), Miss) == GoldenDistance(c, n)
  {
    hide Total, Median, RowPairs, HumanMedian, Scored;
    if n > 0 {
      GoldenPairsSum(c, d, n - 1);
      GoldenRow(d.golden, d.medians, n - 1);
      MedianOfColumn(c, d, n - 1);
    } else {
      EmptyRefs(d.golden);
    }
  }

  lemma {:induction false} EmptyRefs(row: seq<real>)
    ensures Total(RowPairs(row, []), Miss) == 0.0
  {
  }

  lemma {:induction false} HumanPairsSum(c: Case, d: Doc, n: nat)
    requires Reduced(c, d) && n <= |c.golden| == |d.medians|
    ensures Total(DocPairs(d.humans, d.medians[..n]), Miss) == HumanDistance(c, n)
  {
    hide Total, Median, DocPairs, HumanMedian, Scored, Distance;
    if n > 0 {
      HumanPairsSum(c, d, n - 1);
      LongHumans(d, n - 1);
      ColumnAdds(d.humans, d.medians, n - 1);
      MedianOfColumn(c, d, n - 1);
    } else {
      NoPairsInDoc(d.humans, []);
      assert Total([], Miss) == 0.0 by { NoTerms(); }
    }
  }

  lemma NoTerms()
    ensures Total([], Miss) == 0.0
  {
  }

  lemma LongHumans(d: Doc, n: nat)
    requires Scored(d) && n < |d.golden|
    ensures forall h | h in d.humans :: n < |h|
  {
    hide Median;
  }

  lemma {:induction false} RowSize(row: seq<real>, refs: seq<real>)
    requires |row| == |refs|
    ensures |RowPairs(row, refs)| == |row|
  {
    if row != [] {
      RowSize(row[1..], refs[1..]);
    }
  }

  lemma {:induction false} DocSizeStep(humans: seq<seq<real>>, refs: seq<real>)
    requires humans != []
    ensures |DocPairs(humans, refs)| == |DocPairs(humans[..|humans| - 1], refs)| + |RowPairs(humans[|humans| - 1], refs)|
  {
  }

  lemma OneMoreTime(n: nat, m: nat)
    ensures (n + 1) * m == n * m + m
  {
  }

  lemma {:induction false} DocSize(humans: seq<seq<real>>, refs: seq<real>)
    requires forall h | h in humans :: |h| == |refs|
    ensures |DocPairs(humans, refs)| == |humans| * |refs|
  {
    if humans != [] {
      DocSize(humans[..|humans| - 1], refs);
      RowSize(humans[|humans| - 1], refs);
      hide RowPairs, DocPairs;
      DocSizeStep(humans, refs);
      OneMoreTime(|humans| - 1, |refs|);
    }
  }

  /** What a document adds to the four sums of the report. */
  lemma DocAdds(c: Case, d: Doc)
    requires Reduced(c, d)
    ensures Total(RowPairs(d.golden, d.medians), Miss) == GoldenDistanceOf(c)
    ensures |RowPairs(d.golden, d.medians)| as real == CriteriaOf(c)
    ensures Total(DocPairs(d.humans, d.medians), Miss) == HumanDistanceOf(c)
    ensures |DocPairs(d.humans, d.medians)| as real == ScoresOf(c)
  {
    hide Total, Median, DocPairs, RowPairs, HumanMedian, HumanDistance, GoldenDistance, Scored;
    ScoredShape(d);
    assert d.medians[..|c.golden|] == d.medians;
    GoldenPairsSum(c, d, |c.golden|);
    HumanPairsSum(c, d, |c.golden|);
    RowSize(d.golden, d.medians);
    DocSize(d.humans, d.medians);
    assert |d.humans| * |d.medians| == |c.golden| * |c.forms|;
  }

  // ---------------------------------------------------------------- the report

  /** The positions of the documents without questionnaires, in order. */
  function WithoutForms(cases: seq<Case>): seq<nat> {
    if cases == [] then []
    else WithoutForms(cases[..|cases| - 1]) + if cases[|cases| - 1].forms == [] then [|cases| - 1] else []
  }

  /** The four sums behind the report. */
  ghost predicate Sums(cases: seq<Case>, docs: seq<Doc>) {
    && Total(GoldenPairs(docs), Miss) == SumCompared(cases, GoldenDistanceOf)
    && |GoldenPairs(docs)| as real == SumCompared(cases, CriteriaOf)
    && Total(HumanPairs(docs, MediansOf(docs)), Miss) == SumCompared(cases, HumanDistanceOf)
    && |HumanPairs(docs, MediansOf(docs))| as real == SumCompared(cases, ScoresOf)
  }

  lemma OneMoreSum(cases: seq<Case>, docs: seq<Doc>, c: Case, d: Doc)
    requires Sums(cases, docs) && Reduced(c, d)
    ensures Sums(cases + [c], docs + [d])
  {
    hide Total, RowPairs, DocPairs, Reduced, GoldenDistanceOf, HumanDistanceOf, ScoresOf, CriteriaOf, SumCompared;
    DocAdds(c, d);
    var all := docs + [d];
    assert all[..|all| - 1] == docs && (cases + [c])[..|cases|] == cases;
    LastOfHumanPairs(all);
    TotalConcat(GoldenPairs(docs), RowPairs(d.golden, d.medians), Miss);
    TotalConcat(HumanPairs(docs, MediansOf(docs)), DocPairs(d.humans, d.medians), Miss);
    assert c.forms != [] by { HasForms(c, d); }
    forall f: Case -> real ensures SumCompared(cases + [c], f) == SumCompared(cases, f) + f(c) {
      SumExtends(cases, c, f);
    }
  }

  lemma HasForms(c: Case, d: Doc)
    requires Reduced(c, d)
    ensures c.forms != []
  {
  }

  lemma {:induction false} SumExtends(cases: seq<Case>, c: Case, f: Case -> real)
    ensures SumCompared(cases + [c], f) == SumCompared(cases, f) + if c.forms == [] then 0.0 else f(c)
  {
    assert (cases + [c])[..|cases|] == cases;
  }

  /** What one more case does to the documents. */
  lemma {:induction false} NextDoc(cases: seq<Case>)
    requires cases != [] && DocsOf(cases).Docs?
    ensures DocsOf(cases[..|cases| - 1]).Docs?
    ensures var before, now, c := DocsOf(cases[..|cases| - 1]), DocsOf(cases), cases[|cases| - 1];
            if c.forms == [] then now == Docs(before.docs, before.skipped + [|cases| - 1])
            else now.skipped == before.skipped && now.docs != []
                 && now.docs == before.docs + [now.docs[|now.docs| - 1]] && Reduced(c, now.docs[|now.docs| - 1])
  {
    hide Reduced, Medians, RowsOf, Acceptable;
    var c := cases[|cases| - 1];
    RowsIff(c.forms, |c.golden|);
    RowsAreComplete(c.forms, |c.golden|);
    if c.forms == [] {
      NoRows(|c.golden|);
    } else {
      ReducedCase(c);
    }
  }

  lemma {:induction false} DocsSum(cases: seq<Case>)
    requires DocsOf(cases).Docs?
    ensures Sums(cases, DocsOf(cases).docs) && DocsOf(cases).skipped == WithoutForms(cases)
  {
    if cases == [] {
      NoTerms();
    } else {
      hide Sums, Reduced, DocsOf;
      var init, c := cases[..|cases| - 1], cases[|cases| - 1];
      assert cases == init + [c];
      NextDoc(cases);
      DocsSum(init);
      if c.forms == [] {
        NothingAdded(init, c, DocsOf(init).docs);
      } else {
        var docs := DocsOf(cases).docs;
        OneMoreSum(init, DocsOf(init).docs, c, docs[|docs| - 1]);
      }
    }
  }

  lemma {:induction false} NoRows(n: nat)
    ensures RowsOf([], n) == Rows([])
  {
  }

  lemma NothingAdded(cases: seq<Case>, c: Case, docs: seq<Doc>)
    requires Sums(cases, docs) && c.forms == []
    ensures Sums(cases + [c], docs)
  {
    hide SumCompared, Total, GoldenPairs, HumanPairs;
    SumExtends(cases, c, GoldenDistanceOf);
    SumExtends(cases, c, CriteriaOf);
    SumExtends(cases, c, HumanDistanceOf);
    SumExtends(cases, c, ScoresOf);
  }

  lemma {:induction false} MeanTimesCount(pairs: seq<Pair>)
    requires pairs != []
    ensures MeanAbsoluteError(pairs) == Some(Total(pairs, Miss) / |pairs| as real)
    ensures Total(pairs, Miss) / |pairs| as real * |pairs| as real == Total(pairs, Miss)
  {
  }

  /**
   The two numbers of a report, times what they are averaged over: the distances of the golden scores from the human
   medians over all criteria, and of the human scores from their medians over all scores. Documents without
   questionnaires are skipped, the others are reported in order.
   */
  lemma {:induction false} ReportIs(cases: seq<Case>)
    requires AgreementOf(cases).Report?
    ensures var r := AgreementOf(cases);
            && r.compared as real == SumCompared(cases, CriteriaOf) > 0.0
            && r.goldenVsHumans * r.compared as real == SumCompared(cases, GoldenDistanceOf)
            && SumCompared(cases, ScoresOf) > 0.0
            && r.interHuman * SumCompared(cases, ScoresOf) == SumCompared(cases, HumanDistanceOf)
            && r.skipped == WithoutForms(cases) && AllReduced(Compared(cases), r.docs)
  {
    hide Total, SumCompared, GoldenPairs, HumanPairs, DocsOf, WithoutForms, Miss, AllReduced, Compared;
    DocsSum(cases);
    DocsReduced(cases);
    var docs := DocsOf(cases).docs;
    MeanTimesCount(GoldenPairs(docs));
    MeanTimesCount(HumanPairs(docs, MediansOf(docs)));
  }

  /** The cases with questionnaires, in order. */
  function Compared(cases: seq<Case>): seq<Case> {
    if cases == [] then []
    else Compared(cases[..|cases| - 1]) + if cases[|cases| - 1].forms == [] then [] else [cases[|cases| - 1]]
  }

  ghost predicate AllReduced(cases: seq<Case>, docs: seq<Doc>) {
    |docs| == |cases| && forall i | 0 <= i < |docs| :: Reduced(cases[i], docs[i])
  }

  lemma AllReducedExtend(cases: seq<Case>, docs: seq<Doc>, c: Case, d: Doc)
    requires AllReduced(cases, docs) && Reduced(c, d)
    ensures AllReduced(cases + [c], docs + [d])
  {
    hide Reduced;
  }

  /** The documents of a report are the cases with questionnaires in order, each with its golden scores, columns and medians. */
  lemma {:induction false} DocsReduced(cases: seq<Case>)
    requires DocsOf(cases).Docs?
    ensures AllReduced(Compared(cases), DocsOf(cases).docs)
  {
    if cases != [] {
      hide Reduced, DocsOf, AllReduced;
      NextDoc(cases);
      DocsReduced(cases[..|cases| - 1]);
      var c, docs := cases[|cases| - 1], DocsOf(cases).docs;
      if c.forms == [] {
        assert Compared(cases) == Compared(cases[..|cases| - 1]);
      } else {
        AllReducedExtend(Compared(cases[..|cases| - 1]), DocsOf(cases[..|cases| - 1]).docs, c, docs[|docs| - 1]);
      }
    }
  }

  // ---------------------------------------------------------------- no distance at all

  predicate GoldenAreMedians(c: Case) {
    Answers(c) && forall k: nat | k < |c.golden| :: c.golden[k] == HumanMedian(c, k)
  }

  lemma {:induction false} ZeroDistance(c: Case, n: nat)
    requires Answers(c) && n <= |c.golden|
    ensures GoldenDistance(c, n) >= 0.0
    ensures GoldenDistance(c, n) == 0.0 <==> forall k: nat | k < n :: c.golden[k] == HumanMedian(c, k)
  {
    hide HumanMedian;
    if n > 0 {
      ZeroDistance(c, n - 1);
    }
  }

  lemma {:induction false} ZeroSum(cases: seq<Case>)
    requires forall c | c in cases :: Answers(c)
    ensures SumCompared(cases, GoldenDistanceOf) >= 0.0
    ensures SumCompared(cases, GoldenDistanceOf) == 0.0 <==>
            forall c | c in cases && c.forms != [] :: GoldenAreMedians(c)
  {
    if cases != [] {
      hide HumanMedian, GoldenDistance;
      var init, last := cases[..|cases| - 1], cases[|cases| - 1];
      assert cases == init + [last];
      ZeroSum(init);
      ZeroDistance(last, |last.golden|);
    }
  }

  /** The golden scores and the humans agree fully exactly when every golden score is the median of the human ones. */
  lemma FullAgreementIff(cases: seq<Case>)
    requires AgreementOf(cases).Report?
    ensures AgreementOf(cases).goldenVsHumans == 0.0 <==>
            forall c | c in cases && c.forms != [] :: GoldenAreMedians(c)
  {
    hide SumCompared, DocsOf, ReportOf, GoldenAreMedians, AllAcceptable, Comparable, Answers;
    ReportIff(cases);
    ReportIs(cases);
    forall c | c in cases ensures Answers(c) {
      AcceptableAnswers(c);
    }
    ZeroSum(cases);
    var r := AgreementOf(cases);
    ProductZero(r.goldenVsHumans, r.compared as real);
  }

  lemma ProductZero(a: real, b: real)
    requires b > 0.0
    ensures a * b == 0.0 <==> a == 0.0
  {
    if a * b == 0.0 {
      assert a == a * b / b;
    }
  }

  // ---------------------------------------------------------------- the first bad questionnaire

  ghost predicate ZeroIn(form: Form) {
    exists k :: k in form && form[k].upper == 0
  }

  /** The first questionnaire that is not acceptable; a zero score is named before a missing one. */
  ghost predicate FirstBadForm(forms: seq<Form>, n: nat, human: nat, error: FormError) {
    && human < |forms| && !Acceptable(forms[human], n)
    && (forall h | 0 <= h < human :: Acceptable(forms[h], n))
    && (error == ZeroScore <==> ZeroIn(forms[human]))
  }

  lemma {:induction false} BadFormIs(forms: seq<Form>, n: nat)
    ensures var r := RowsOf(forms, n); r.BadForm? ==> FirstBadForm(forms, n, r.human, r.error)
  {
    if forms != [] {
      var init, last := forms[..|forms| - 1], forms[|forms| - 1];
      BadFormIs(init, n);
      RowsIff(init, n);
      hide Acceptable;
      assert forall h | 0 <= h < |init| :: init[h] == forms[h] && init[h] in init;
      if RowsOf(init, n).Rows? && RowsOf(forms, n).BadForm? {
        LastBad(forms, n);
      }
    }
  }

  lemma {:induction false} LastBad(forms: seq<Form>, n: nat)
    requires forms != [] && RowsOf(forms[..|forms| - 1], n).Rows? && RowsOf(forms, n).BadForm?
    ensures var last := |forms| - 1;
            RowsOf(forms, n).human == last && !Acceptable(forms[last], n)
            && (RowsOf(forms, n).error == ZeroScore <==> ZeroIn(forms[last]))
  {
  }

  lemma {:induction false} RejectedDoc(cases: seq<Case>)
    ensures var r := DocsOf(cases);
            r.Rejected? ==>
              && r.doc < |cases| && FirstBadForm(cases[r.doc].forms, |cases[r.doc].golden|, r.human, r.error)
              && forall d | 0 <= d < r.doc :: AllAcceptable(cases[d])
  {
    if cases != [] {
      hide RowsOf, FirstBadForm, AllAcceptable, Medians;
      var init, last := cases[..|cases| - 1], cases[|cases| - 1];
      RejectedDoc(init);
      DocsIff(init);
      BadFormIs(last.forms, |last.golden|);
      RowsAreComplete(last.forms, |last.golden|);
      assert forall d | 0 <= d < |init| :: init[d] == cases[d] && init[d] in init;
    }
  }

  /** A rejection names the first document with a bad questionnaire, the first such questionnaire, and what is wrong with it. */
  lemma {:induction false} RejectionIs(cases: seq<Case>)
    requires AgreementOf(cases).FormRejected?
    ensures var r := AgreementOf(cases);
            && r.doc < |cases| && FirstBadForm(cases[r.doc].forms, |cases[r.doc].golden|, r.human, r.error)
            && forall d | 0 <= d < r.doc :: AllAcceptable(cases[d])
  {
    hide DocsOf, FirstBadForm, AllAcceptable, GoldenPairs, HumanPairs, MeanAbsoluteError;
    RejectedDoc(cases);
  }
}
