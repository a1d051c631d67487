/** Median, mean absolute error and the agreement of human raters (src/bench.rs). */
module Agreement {
  import opened Wrappers
  import opened Totals

  function Abs(x: real): real { if x < 0.0 then -x else x }

  function Distance(c: real): real -> real { x => Abs(x - c) }

  // ---------------------------------------------------------------- median

  /** The middle of a sorted sample, or the midpoint of its two middles. */
  function Middle(sorted: seq<real>): real
    requires sorted != []
  {
    var mid := |sorted| / 2;
    if |sorted| % 2 == 1 then sorted[mid] else (sorted[mid - 1] + sorted[mid]) / 2.0
  }

  function Median(xs: seq<real>): Option<real> {
    if xs == [] then None else Some(Middle(SortBy(xs, Itself)))
  }

  lemma {:induction false} TotalOfEnds(s: seq<real>, c: real)
    requires |s| > 2
    ensures Total(s, Distance(c)) == Abs(s[0] - c) + Total(s[1..|s| - 1], Distance(c)) + Abs(s[|s| - 1] - c)
  {
    var first, inner, last := s[0], s[1..|s| - 1], s[|s| - 1];
    assert s == ([first] + inner) + [last] && [] + [first] == [first];
    TotalExtend([first] + inner, last, Distance(c));
    TotalConcat([first], inner, Distance(c));
    TotalExtend([], first, Distance(c));
  }

  lemma {:induction false} TotalOfFew(s: seq<real>, c: real)
    requires 1 <= |s| <= 2
    ensures Total(s, Distance(c)) == Abs(s[0] - c) + if |s| == 1 then 0.0 else Abs(s[1] - c)
  {
    assert s[..1][..0] == [];
    assert Total(s[..1], Distance(c)) == Abs(s[0] - c);
    assert |s| == 1 ==> s[..1] == s;
  }

  lemma {:induction false} FewMinimised(s: seq<real>, m: real, c: real)
    requires SortedBy(s, Itself) && 1 <= |s| <= 2
    requires s[0] <= m <= s[|s| - 1]
    ensures Total(s, Distance(m)) <= Total(s, Distance(c))
  {
    hide Total;
    TotalOfFew(s, m);
    TotalOfFew(s, c);
  }

  lemma InnerMiddles(s: seq<real>)
    requires |s| > 2
    ensures var inner := s[1..|s| - 1];
            && (|inner| - 1) / 2 + 1 == (|s| - 1) / 2 && inner[(|inner| - 1) / 2] == s[(|s| - 1) / 2]
            && |inner| / 2 + 1 == |s| / 2 && inner[|inner| / 2] == s[|s| / 2]
  {
  }

  /** Between the middles of a sorted sample no other centre is closer: strip the ends and go on. */
  lemma {:induction false} MiddleMinimises(s: seq<real>, m: real, c: real)
    requires SortedBy(s, Itself) && s != []
    requires s[(|s| - 1) / 2] <= m <= s[|s| / 2]
    ensures Total(s, Distance(m)) <= Total(s, Distance(c))
    decreases |s|
  {
    if |s| <= 2 {
      FewMinimised(s, m, c);
    } else {
      hide Total, SortedBy, Distance;
      var inner := s[1..|s| - 1];
      InnerMiddles(s);
      SortedSpread(s, m);
      TotalOfEnds(s, m);
      TotalOfEnds(s, c);
      MiddleMinimises(inner, m, c);
    }
  }

  /** The first element is not above the middles, the last not below, and the inside is sorted. */
  lemma SortedSpread(s: seq<real>, m: real)
    requires SortedBy(s, Itself) && |s| > 2
    requires s[(|s| - 1) / 2] <= m <= s[|s| / 2]
    ensures s[0] <= m <= s[|s| - 1]
    ensures SortedBy(s[1..|s| - 1], Itself)
  {
    assert Itself(s[0]) <= Itself(s[(|s| - 1) / 2]);
    assert |s| / 2 < |s| - 1 ==> Itself(s[|s| / 2]) <= Itself(s[|s| - 1]);
    var inner := s[1..|s| - 1];
    assert forall i | 0 <= i < |inner| :: inner[i] == s[i + 1];
  }

  /** No centre has a smaller total distance to a sample than its median. */
  lemma {:induction false} MedianMinimises(xs: seq<real>, c: real)
    requires xs != []
    ensures Total(xs, Distance(Median(xs).value)) <= Total(xs, Distance(c))
  {
    hide SortBy, SortedBy;
    var sorted := SortBy(xs, Itself);
    assert |multiset(sorted)| == |multiset(xs)|;
    var m := Middle(sorted);
    TotalPermutes(xs, sorted, Distance(m));
    TotalPermutes(xs, sorted, Distance(c));
    MiddleBetween(sorted);
    MiddleMinimises(sorted, m, c);
  }

  lemma MiddleBetween(sorted: seq<real>)
    requires SortedBy(sorted, Itself) && sorted != []
    ensures sorted[(|sorted| - 1) / 2] <= Middle(sorted) <= sorted[|sorted| / 2]
  {
    var a, b := (|sorted| - 1) / 2, |sorted| / 2;
    assert a < b ==> Itself(sorted[a]) <= Itself(sorted[b]);
  }

  // ---------------------------------------------------------------- mean absolute error

  datatype Pair = Pair(got: real, want: real)

  function Miss(p: Pair): real { Abs(p.got - p.want) }

  function MeanAbsoluteError(pairs: seq<Pair>): Option<real> {
    if pairs == [] then None else Some(Total(pairs, Miss) / |pairs| as real)
  }

  // ---------------------------------------------------------------- questionnaires

  /** A questionnaire's answer to one criterion: the upper end of the range and its rounded midpoint. */
  datatype Score = Score(upper: nat, rounded: real)

  /** Criteria are numbered in the golden document's key order; a questionnaire may hold others too. */
  type Form = map<nat, Score>

  datatype Case = Case(golden: seq<real>, forms: seq<Form>)

  datatype FormError = ZeroScore | Incomplete

  datatype Rows = Rows(rows: seq<seq<real>>) | BadForm(human: nat, error: FormError)

  /** All questionnaires of a document, reduced to the golden criteria; the first bad one ends it. */
  function RowsOf(forms: seq<Form>, n: nat): Rows {
    if forms == [] then Rows([])
    else
      var last := |forms| - 1;
      match RowsOf(forms[..last], n)
      case BadForm(human, error) => BadForm(human, error)
      case Rows(rows) =>
        var form := forms[last];
        if exists c | c in form :: form[c].upper == 0 then BadForm(last, ZeroScore)
        else if exists c: nat | c < n :: c !in form then BadForm(last, Incomplete)
        else Rows(rows + [seq(n, c requires 0 <= c < n => form[c].rounded)])
  }

  datatype Doc = Doc(golden: seq<real>, medians: seq<real>, humans: seq<seq<real>>)

  function Column(humans: seq<seq<real>>, c: nat): seq<real>
    requires forall h | h in humans :: c < |h|
  {
    seq(|humans|, h requires 0 <= h < |humans| => assert humans[h] in humans; humans[h][c])
  }

  /** Every human scored every golden criterion, and the medians are theirs. */
  ghost predicate Scored(d: Doc) {
    && d.humans != [] && |d.medians| == |d.golden|
    && (forall h | h in d.humans :: |h| == |d.golden|)
    && forall c | 0 <= c < |d.medians| :: Some(d.medians[c]) == Median(Column(d.humans, c))
  }

  datatype Docs =
    | Docs(docs: seq<Doc>, skipped: seq<nat>)
    | Rejected(doc: nat, human: nat, error: FormError)

  function Criterion(humans: seq<seq<real>>, c: nat): real
    requires humans != [] && forall h | h in humans :: c < |h|
  {
    Median(Column(humans, c)).value
  }

  function Medians(humans: seq<seq<real>>, n: nat): seq<real>
    requires humans != [] && forall h | h in humans :: n <= |h|
  {
    seq(n, c requires 0 <= c < n => Criterion(humans, c))
  }

  /** The documents with questionnaires and the positions of those without. */
  function DocsOf(cases: seq<Case>): Docs {
    if cases == [] then Docs([], [])
    else
      var last := |cases| - 1;
      match DocsOf(cases[..last])
      case Rejected(doc, human, error) => Rejected(doc, human, error)
      case Docs(docs, skipped) =>
        var golden := cases[last].golden;
        match RowsOf(cases[last].forms, |golden|)
        case BadForm(human, error) => Rejected(last, human, error)
        case Rows(rows) =>
          RowsAreComplete(cases[last].forms, |golden|);
          if rows == [] then Docs(docs, skipped + [last])
          else Docs(docs + [Doc(golden, Medians(rows, |golden|), rows)], skipped)
  }

  lemma {:induction false} RowsAreComplete(forms: seq<Form>, n: nat)
    ensures RowsOf(forms, n).Rows? ==> |RowsOf(forms, n).rows| == |forms|
    ensures RowsOf(forms, n).Rows? ==> forall h | h in RowsOf(forms, n).rows :: |h| == n
  {
    if forms != [] {
      RowsAreComplete(forms[..|forms| - 1], n);
    }
  }

  lemma MedianDefined(xs: seq<real>)
    requires xs != []
    ensures Median(xs).Some?
  {
  }

  lemma MediansAreMedians(humans: seq<seq<real>>, golden: seq<real>)
    requires humans != [] && forall h | h in humans :: |h| == |golden|
    ensures Scored(Doc(golden, Medians(humans, |golden|), humans))
  {
    hide Median;
    forall c: nat | c < |golden| ensures Some(Criterion(humans, c)) == Median(Column(humans, c)) {
      MedianDefined(Column(humans, c));
    }
  }

  lemma {:induction false} DocsAreScored(cases: seq<Case>)
    ensures DocsOf(cases).Docs? ==> forall d | d in DocsOf(cases).docs :: Scored(d)
  {
    if cases != [] {
      hide Scored, RowsOf, Medians;
      var last := |cases| - 1;
      DocsAreScored(cases[..last]);
      RowsAreComplete(cases[last].forms, |cases[last].golden|);
      var rows := RowsOf(cases[last].forms, |cases[last].golden|);
      if rows.Rows? && rows.rows != [] {
        MediansAreMedians(rows.rows, cases[last].golden);
      }
    }
  }

  // ---------------------------------------------------------------- the report

  /** One row of scores against references, as far as both go. */
  function RowPairs(row: seq<real>, refs: seq<real>): seq<Pair> {
    if row == [] || refs == [] then [] else [Pair(row[0], refs[0])] + RowPairs(row[1..], refs[1..])
  }

  function DocPairs(humans: seq<seq<real>>, refs: seq<real>): seq<Pair> {
    if humans == [] then []
    else DocPairs(humans[..|humans| - 1], refs) + RowPairs(humans[|humans| - 1], refs)
  }

  /** Every human score against the reference of its document and criterion. */
  function HumanPairs(docs: seq<Doc>, refs: seq<seq<real>>): seq<Pair>
    requires |docs| == |refs|
  {
    if docs == [] then []
    else HumanPairs(docs[..|docs| - 1], refs[..|refs| - 1]) + DocPairs(docs[|docs| - 1].humans, refs[|refs| - 1])
  }

  function GoldenPairs(docs: seq<Doc>): seq<Pair> {
    if docs == [] then []
    else GoldenPairs(docs[..|docs| - 1]) + RowPairs(docs[|docs| - 1].golden, docs[|docs| - 1].medians)
  }

  function MediansOf(docs: seq<Doc>): (refs: seq<seq<real>>)
    ensures |refs| == |docs|
  {
    seq(|docs|, d requires 0 <= d < |docs| => docs[d].medians)
  }

  function GoldenOf(docs: seq<Doc>): (refs: seq<seq<real>>)
    ensures |refs| == |docs|
  {
    seq(|docs|, d requires 0 <= d < |docs| => docs[d].golden)
  }

  datatype Agreed =
    | Report(docs: seq<Doc>, goldenVsHumans: real, interHuman: real, compared: nat, skipped: seq<nat>)
    | EmptyGolden
    | FormRejected(doc: nat, human: nat, error: FormError)
    | NoForms
    | NoPairs

  function AgreementOf(cases: seq<Case>): Agreed {
    if cases == [] then EmptyGolden
    else
      match DocsOf(cases)
      case Rejected(doc, human, error) => FormRejected(doc, human, error)
      case Docs(docs, skipped) => ReportOf(docs, skipped)
  }

  function ReportOf(docs: seq<Doc>, skipped: seq<nat>): Agreed {
    if docs == [] then NoForms
    else
      var golden := MeanAbsoluteError(GoldenPairs(docs));
      var inter := MeanAbsoluteError(HumanPairs(docs, MediansOf(docs)));
      if golden.None? || inter.None? then NoPairs
      else Report(docs, golden.value, inter.value, |GoldenPairs(docs)|, skipped)
  }

  // ---------------------------------------------------------------- the loops

  method CollectRows(forms: seq<Form>, n: nat) returns (r: Rows)
    ensures r == RowsOf(forms, n)
  {
    var rows := [];
    for h := 0 to |forms|
      invariant RowsOf(forms[..h], n) == Rows(rows)
    {
      var form := forms[h];
      assert forms[..h + 1][..h] == forms[..h];
      if exists c | c in form :: form[c].upper == 0 {
        BadFormStays(forms, n, h);
        return BadForm(h, ZeroScore);
      }
      if exists c: nat | c < n :: c !in form {
        BadFormStays(forms, n, h);
        return BadForm(h, Incomplete);
      }
      rows := rows + [seq(n, c requires 0 <= c < n => form[c].rounded)];
    }
    assert forms[..|forms|] == forms;
    r := Rows(rows);
  }

  lemma {:induction false} BadFormStays(forms: seq<Form>, n: nat, h: nat)
    requires h < |forms| && RowsOf(forms[..h + 1], n).BadForm?
    ensures RowsOf(forms, n) == RowsOf(forms[..h + 1], n)
  {
    if h + 1 < |forms| {
      var init := forms[..|forms| - 1];
      assert init[..h + 1] == forms[..h + 1];
      BadFormStays(init, n, h);
    } else {
      assert forms[..h + 1] == forms;
    }
  }

  method HumanAgreement(cases: seq<Case>) returns (r: Agreed)
    ensures r == AgreementOf(cases)
  {
    hide Median, RowsOf;
    if cases == [] {
      return EmptyGolden;
    }
    var docs: seq<Doc>, skipped: seq<nat> := [], [];
    for k := 0 to |cases|
      invariant DocsOf(cases[..k]) == Docs(docs, skipped)
    {
      assert cases[..k + 1][..k] == cases[..k];
      var golden := cases[k].golden;
      var rows := CollectRows(cases[k].forms, |golden|);
      RowsAreComplete(cases[k].forms, |golden|);
      if rows.BadForm? {
        RejectionStays(cases, k);
        return FormRejected(k, rows.human, rows.error);
      }
      if rows.rows == [] {
        skipped := skipped + [k];
      } else {
        var medians := [];
        for c := 0 to |golden|
          invariant |medians| == c
          invariant forall b | 0 <= b < c :: medians[b] == Criterion(rows.rows, b)
        {
          MedianDefined(Column(rows.rows, c));
          medians := medians + [Median(Column(rows.rows, c)).value];
        }
        assert medians == Medians(rows.rows, |golden|);
        docs := docs + [Doc(golden, medians, rows.rows)];
      }
    }
    assert cases[..|cases|] == cases;
    r := ReportOf(docs, skipped);
  }

  lemma {:induction false} RejectionStays(cases: seq<Case>, k: nat)
    requires k < |cases| && DocsOf(cases[..k + 1]).Rejected?
    ensures DocsOf(cases) == DocsOf(cases[..k + 1])
  {
    if k + 1 < |cases| {
      var init := cases[..|cases| - 1];
      assert init[..k + 1] == cases[..k + 1];
      RejectionStays(init, k);
    } else {
      assert cases[..k + 1] == cases;
    }
  }

  // ---------------------------------------------------------------- the medians are the best references

  lemma {:induction false} RowExtends(row: seq<real>, refs: seq<real>, n: nat)
    requires n < |refs| && n < |row|
    ensures RowPairs(row, refs[..n + 1]) == RowPairs(row, refs[..n]) + [Pair(row[n], refs[n])]
    decreases n
  {
    if n == 0 {
      assert refs[..1][1..] == [];
    } else {
      RowExtends(row[1..], refs[1..], n - 1);
      assert refs[..n + 1][1..] == refs[1..][..n] && refs[..n][1..] == refs[1..][..n - 1];
    }
  }

  lemma {:induction false} SameRowSize(row: seq<real>, a: seq<real>, b: seq<real>)
    requires |a| == |b|
    ensures |RowPairs(row, a)| == |RowPairs(row, b)|
  {
    if row != [] && a != [] {
      SameRowSize(row[1..], a[1..], b[1..]);
    }
  }

  lemma {:induction false} DocTotal(humans: seq<seq<real>>, refs: seq<real>)
    requires humans != []
    ensures Total(DocPairs(humans, refs), Miss)
         == Total(DocPairs(humans[..|humans| - 1], refs), Miss) + Total(RowPairs(humans[|humans| - 1], refs), Miss)
  {
    TotalConcat(DocPairs(humans[..|humans| - 1], refs), RowPairs(humans[|humans| - 1], refs), Miss);
  }

  lemma {:induction false} RowTotal(row: seq<real>, refs: seq<real>, n: nat)
    requires n < |refs| && n < |row|
    ensures Total(RowPairs(row, refs[..n + 1]), Miss)
         == Total(RowPairs(row, refs[..n]), Miss) + Distance(refs[n])(row[n])
  {
    hide Total, RowPairs;
    RowExtends(row, refs, n);
    TotalExtend(RowPairs(row, refs[..n]), Pair(row[n], refs[n]), Miss);
  }

  lemma ColumnTotal(humans: seq<seq<real>>, n: nat, f: real -> real)
    requires humans != [] && forall h | h in humans :: n < |h|
    ensures Total(Column(humans, n), f)
         == Total(Column(humans[..|humans| - 1], n), f) + f(humans[|humans| - 1][n])
  {
    hide Total;
    var init, row := humans[..|humans| - 1], humans[|humans| - 1];
    assert Column(humans, n) == Column(init, n) + [row[n]];
    TotalExtend(Column(init, n), row[n], f);
  }

  /** Summing by rows equals summing by columns: one more criterion adds its column's distance. */
  lemma {:induction false} ColumnAdds(humans: seq<seq<real>>, refs: seq<real>, n: nat)
    requires n < |refs| && forall h | h in humans :: n < |h|
    ensures Total(DocPairs(humans, refs[..n + 1]), Miss)
         == Total(DocPairs(humans, refs[..n]), Miss) + Total(Column(humans, n), Distance(refs[n]))
  {
    if humans != [] {
      hide Total, RowPairs, DocPairs, Distance;
      ColumnAdds(humans[..|humans| - 1], refs, n);
      DocTotal(humans, refs[..n + 1]);
      DocTotal(humans, refs[..n]);
      RowTotal(humans[|humans| - 1], refs, n);
      ColumnTotal(humans, n, Distance(refs[n]));
    }
  }

  lemma ScoredShape(d: Doc)
    requires Scored(d)
    ensures |d.medians| == |d.golden| && forall h | h in d.humans :: |h| == |d.golden|
  {
    hide Median;
  }

  lemma ColumnBest(d: Doc, c: nat, r: real)
    requires Scored(d) && c < |d.medians| && forall h | h in d.humans :: c < |h|
    ensures Total(Column(d.humans, c), Distance(d.medians[c])) <= Total(Column(d.humans, c), Distance(r))
  {
    hide Median, Total, Distance;
    MedianMinimises(Column(d.humans, c), r);
  }

  lemma {:induction false} DocBest(d: Doc, refs: seq<real>, n: nat)
    requires Scored(d) && |refs| == |d.golden| && n <= |refs|
    ensures Total(DocPairs(d.humans, d.medians[..n]), Miss) <= Total(DocPairs(d.humans, refs[..n]), Miss)
  {
    hide Median, Total, DocPairs, Column, Distance, Scored;
    ScoredShape(d);
    if n == 0 {
      assert d.medians[..0] == refs[..0];
    } else {
      ColumnBest(d, n - 1, refs[n - 1]);
      DocBest(d, refs, n - 1);
      ColumnAdds(d.humans, d.medians, n - 1);
      ColumnAdds(d.humans, refs, n - 1);
    }
  }

  lemma {:induction false} SameDocSize(humans: seq<seq<real>>, a: seq<real>, b: seq<real>)
    requires |a| == |b|
    ensures |DocPairs(humans, a)| == |DocPairs(humans, b)|
  {
    if humans != [] {
      SameDocSize(humans[..|humans| - 1], a, b);
      SameRowSize(humans[|humans| - 1], a, b);
    }
  }

  /** References of the right shape for the documents. */
  ghost predicate Fitting(docs: seq<Doc>, refs: seq<seq<real>>) {
    |refs| == |docs| && forall d | 0 <= d < |docs| :: |refs[d]| == |docs[d].golden|
  }

  lemma {:induction false} DocsBest(docs: seq<Doc>, refs: seq<seq<real>>)
    requires Fitting(docs, refs) && forall d | d in docs :: Scored(d)
    ensures |HumanPairs(docs, MediansOf(docs))| == |HumanPairs(docs, refs)|
    ensures Total(HumanPairs(docs, MediansOf(docs)), Miss) <= Total(HumanPairs(docs, refs), Miss)
  {
    if docs != [] {
      hide Total, Scored, DocPairs, HumanPairs;
      var init, d, ref := docs[..|docs| - 1], docs[|docs| - 1], refs[|refs| - 1];
      DocsBest(init, refs[..|refs| - 1]);
      assert MediansOf(docs)[..|docs| - 1] == MediansOf(init);
      LastDocBest(d, ref);
      HumansTotal(docs, MediansOf(docs));
      HumansTotal(docs, refs);
    }
  }

  lemma HumansTotal(docs: seq<Doc>, refs: seq<seq<real>>)
    requires |docs| == |refs| && docs != []
    ensures var init := HumanPairs(docs[..|docs| - 1], refs[..|refs| - 1]);
            var last := DocPairs(docs[|docs| - 1].humans, refs[|refs| - 1]);
            |HumanPairs(docs, refs)| == |init| + |last|
            && Total(HumanPairs(docs, refs), Miss) == Total(init, Miss) + Total(last, Miss)
  {
    hide Total, DocPairs;
    var init := HumanPairs(docs[..|docs| - 1], refs[..|refs| - 1]);
    TotalConcat(init, DocPairs(docs[|docs| - 1].humans, refs[|refs| - 1]), Miss);
  }

  lemma {:induction false} LastDocBest(d: Doc, ref: seq<real>)
    requires Scored(d) && |ref| == |d.golden|
    ensures |DocPairs(d.humans, d.medians)| == |DocPairs(d.humans, ref)|
    ensures Total(DocPairs(d.humans, d.medians), Miss) <= Total(DocPairs(d.humans, ref), Miss)
  {
    hide Total, DocPairs, Median;
    SameDocSize(d.humans, d.medians, ref);
    DocBest(d, ref, |ref|);
    assert d.medians[..|ref|] == d.medians && ref[..|ref|] == ref;
  }

  /**
   The disagreement among the humans is the least their scores can show against any references at all, one for each
   document and criterion.
   */
  lemma {:induction false} InterHumanIsLeast(cases: seq<Case>, refs: seq<seq<real>>)
    requires AgreementOf(cases).Report? && Fitting(AgreementOf(cases).docs, refs)
    ensures var error := MeanAbsoluteError(HumanPairs(AgreementOf(cases).docs, refs));
            error.Some? && AgreementOf(cases).interHuman <= error.value
  {
    hide Total, Median, DocsOf;
    var docs := AgreementOf(cases).docs;
    DocsAreScored(cases);
    DocsBest(docs, refs);
    var best, pairs := HumanPairs(docs, MediansOf(docs)), HumanPairs(docs, refs);
    QuotientOrder(Total(best, Miss), Total(pairs, Miss), |pairs| as real);
  }

  /** In particular the golden scores never fit the humans better than their own medians do. */
  lemma GoldenFitsNoBetter(cases: seq<Case>)
    requires AgreementOf(cases).Report?
    ensures var docs := AgreementOf(cases).docs;
            var error := MeanAbsoluteError(HumanPairs(docs, GoldenOf(docs)));
            error.Some? && AgreementOf(cases).interHuman <= error.value
  {
    InterHumanIsLeast(cases, GoldenOf(AgreementOf(cases).docs));
  }

  // ---------------------------------------------------------------- when there is a report

  /** A questionnaire without a zero score that answers every golden criterion. */
  predicate Acceptable(form: Form, n: nat) {
    (forall c | c in form :: form[c].upper != 0) && forall c: nat | c < n :: c in form
  }

  predicate AllAcceptable(c: Case) {
    forall form | form in c.forms :: Acceptable(form, |c.golden|)
  }

  lemma {:induction false} RowsIff(forms: seq<Form>, n: nat)
    ensures RowsOf(forms, n).Rows? <==> forall form | form in forms :: Acceptable(form, n)
  {
    if forms != [] {
      var init, last := forms[..|forms| - 1], forms[|forms| - 1];
      RowsIff(init, n);
      assert forms == init + [last];
      assert last in forms && forall form | form in init :: form in forms;
    }
  }

  /** A case that yields pairs to compare. */
  predicate Comparable(c: Case) { c.forms != [] && c.golden != [] }

  lemma {:induction false} OneMoreDoc(cases: seq<Case>)
    requires cases != []
    ensures var before, now, last := DocsOf(cases[..|cases| - 1]), DocsOf(cases), cases[|cases| - 1];
            && (now.Docs? <==> before.Docs? && AllAcceptable(last))
            && (now.Docs? ==> (HasGolden(now.docs) <==> HasGolden(before.docs) || Comparable(last)))
  {
    hide Acceptable, RowsOf, Medians, HasGolden;
    var before, last := DocsOf(cases[..|cases| - 1]), cases[|cases| - 1];
    RowsIff(last.forms, |last.golden|);
    RowsAreComplete(last.forms, |last.golden|);
    if before.Docs? {
      forall d: Doc ensures HasGolden(before.docs + [d]) <==> HasGolden(before.docs) || d.golden != [] {
        GoldenAppend(before.docs, d);
      }
    }
  }

  ghost predicate HasGolden(docs: seq<Doc>) { exists d | d in docs :: d.golden != [] }

  lemma GoldenAppend(docs: seq<Doc>, d: Doc)
    ensures HasGolden(docs + [d]) <==> HasGolden(docs) || d.golden != []
  {
    assert d in docs + [d] && forall e | e in docs :: e in docs + [d];
  }

  lemma {:induction false} DocsIff(cases: seq<Case>)
    ensures DocsOf(cases).Docs? <==> forall c | c in cases :: AllAcceptable(c)
    ensures DocsOf(cases).Docs? ==> ((exists c | c in cases :: Comparable(c)) <==> HasGolden(DocsOf(cases).docs))
  {
    if cases != [] {
      hide DocsOf, AllAcceptable, Comparable;
      var init, last := cases[..|cases| - 1], cases[|cases| - 1];
      DocsIff(init);
      OneMoreDoc(cases);
      assert cases == init + [last];
      assert last in cases && forall c | c in init :: c in cases;
    }
  }

  lemma {:induction false} GoldenPairsIff(docs: seq<Doc>)
    requires forall d | d in docs :: |d.medians| == |d.golden|
    ensures GoldenPairs(docs) == [] <==> forall d | d in docs :: d.golden == []
  {
    if docs != [] {
      var init, last := docs[..|docs| - 1], docs[|docs| - 1];
      GoldenPairsIff(init);
      assert docs == init + [last];
      assert last in docs && forall d | d in init :: d in docs;
    }
  }

  ghost predicate NothingGolden(docs: seq<Doc>) {
    forall d | d in docs :: d.golden == []
  }

  ghost predicate AllScored(docs: seq<Doc>) {
    forall d | d in docs :: Scored(d)
  }

  lemma LastApart(docs: seq<Doc>)
    requires docs != []
    ensures var init, last := docs[..|docs| - 1], docs[|docs| - 1];
            && (NothingGolden(docs) <==> NothingGolden(init) && last.golden == [])
            && (AllScored(docs) ==> AllScored(init) && Scored(last))
  {
    hide Scored;
    var init, last := docs[..|docs| - 1], docs[|docs| - 1];
    assert docs == init + [last];
    assert last in docs && forall d | d in init :: d in docs;
  }

  lemma {:induction false} HumanPairsIff(docs: seq<Doc>)
    requires AllScored(docs)
    ensures HumanPairs(docs, MediansOf(docs)) == [] <==> NothingGolden(docs)
  {
    if docs != [] {
      hide Scored, HumanPairs, DocPairs, MediansOf, NothingGolden, AllScored;
      LastApart(docs);
      HumanPairsIff(docs[..|docs| - 1]);
      LastOfHumanPairs(docs);
      LastPairsIff(docs[|docs| - 1]);
    }
  }

  lemma LastOfHumanPairs(docs: seq<Doc>)
    requires docs != []
    ensures var init, last := docs[..|docs| - 1], docs[|docs| - 1];
            HumanPairs(docs, MediansOf(docs)) == HumanPairs(init, MediansOf(init)) + DocPairs(last.humans, last.medians)
  {
    assert MediansOf(docs)[..|docs| - 1] == MediansOf(docs[..|docs| - 1]);
  }

  lemma LastPairsIff(d: Doc)
    requires Scored(d)
    ensures DocPairs(d.humans, d.medians) == [] <==> d.golden == []
  {
    hide Median, Column;
    var row := d.humans[|d.humans| - 1];
    assert row in d.humans;
    if d.golden == [] {
      NoPairsInDoc(d.humans, d.medians);
    }
  }

  lemma {:induction false} NoPairsInDoc(humans: seq<seq<real>>, refs: seq<real>)
    requires refs == []
    ensures DocPairs(humans, refs) == []
  {
    if humans != [] {
      NoPairsInDoc(humans[..|humans| - 1], refs);
    }
  }

  /** There is a report exactly when every questionnaire is acceptable and some document can be compared. */
  lemma ReportIff(cases: seq<Case>)
    ensures AgreementOf(cases).Report? <==>
            (forall c | c in cases :: AllAcceptable(c)) && exists c | c in cases :: Comparable(c)
  {
    hide DocsOf, Scored, AllAcceptable, Comparable, HumanPairs, GoldenPairs, Total;
    DocsIff(cases);
    if DocsOf(cases).Docs? {
      var docs := DocsOf(cases).docs;
      DocsAreScored(cases);
      forall d | d in docs ensures |d.medians| == |d.golden| {
        MediansFit(d);
      }
      GoldenPairsIff(docs);
      HumanPairsIff(docs);
    }
  }

  lemma MediansFit(d: Doc)
    requires Scored(d)
    ensures |d.medians| == |d.golden|
  {
  }
}
