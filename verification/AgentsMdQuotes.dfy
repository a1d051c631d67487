/** What a splice does with a zone whose body quotes an end marker (src/agentsmd.rs). */
module AgentsMdQuotes {
  import opened Strings
  import opened AgentsMd

  /** The first `end` of a zone stands at `q`, before the one that closes it. */
  ghost predicate QuotesEnd(end: string, zone: string, q: nat)
    requires zone != ""
  {
    FirstAt(zone[..|zone| - 1], end, q) && 0 < q && q + |end| < |zone| - 1
  }

  lemma {:induction false} QuoteOrNone(begin: string, end: string, zone: string)
    requires GoodMarkers(begin, end) && FramedZone(begin, end, zone) && !WellFormedZone(begin, end, zone)
    ensures zone != "" && Find(zone[..|zone| - 1], end).Some?
    ensures QuotesEnd(end, zone, Find(zone[..|zone| - 1], end).value)
  {
    hide Find;
    FindIs(zone[..|zone| - 1], end);
  }

  /** Behind a prefix without an `end`, the quoted one is the first. */
  lemma QuotedFirst(begin: string, end: string, prefix: string, zone: string, suffix: string, q: nat)
    requires GoodMarkers(begin, end) && FramedZone(begin, end, zone) && QuotesEnd(end, zone, q)
    requires forall p: nat | p < |prefix| :: !OccursAt(prefix + (zone + suffix), end, p)
    ensures FirstAt(prefix + (zone + suffix), end, |prefix| + q)
  {
    var text, z := prefix + (zone + suffix), zone[..|zone| - 1];
    assert text[|prefix|..|prefix| + |z|] == z[0..|z|];
    OccursInBoth(text, |prefix|, z, 0, |z|, end, q);
    forall p: nat | |prefix| <= p < |prefix| + q ensures !OccursAt(text, end, p) {
      OccursInBoth(text, |prefix|, z, 0, |z|, end, p - |prefix|);
    }
  }

  // ---------------------------------------------------------------- what is left over

  /** Line breaks are trimmed from the front of a text with something else in it as if nothing followed. */
  lemma {:induction false} TrimConcat(s: string, t: string)
    requires s != "" && s[|s| - 1] != '\n'
    ensures TrimStartNewlines(s + t) == TrimStartNewlines(s) + t && TrimStartNewlines(s) != ""
  {
    if s[0] == '\n' {
      assert (s + t)[1..] == s[1..] + t;
      TrimConcat(s[1..], t);
    }
  }

  /** What stands behind the quoted `end` up to the close of the zone, without the line breaks at its front. */
  function LeftOver(end: string, zone: string, q: nat): string
    requires zone != "" && q + |end| <= |zone| - 1
  {
    TrimStartNewlines(zone[..|zone| - 1][q + |end|..])
  }

  lemma {:induction false} LeftOverStays(begin: string, end: string, zone: string, q: nat, rest: string)
    requires GoodMarkers(begin, end) && FramedZone(begin, end, zone) && QuotesEnd(end, zone, q)
    ensures var z := zone[..|zone| - 1];
            TrimStartNewlines(z[q + |end|..] + rest) == LeftOver(end, zone, q) + rest && LeftOver(end, zone, q) != ""
  {
    var z := zone[..|zone| - 1];
    var s := z[q + |end|..];
    assert z[|z| - |end|..|z|][|end| - 1] == z[|z| - 1] && s[|s| - 1] == z[|z| - 1];
    TrimConcat(s, rest);
  }

  // ---------------------------------------------------------------- refreshing

  /** A refreshed file holds the zone in the place of the old one; its quoted `end` is the first. */
  lemma QuotedMarkers(begin: string, end: string, existing: string, zone: string, b: nat, e: nat, q: nat)
    requires GoodMarkers(begin, end) && FramedZone(begin, end, zone) && QuotesEnd(end, zone, q)
    requires FirstAt(existing, begin, b) && FirstAt(existing, end, e) && b < e
    ensures b <= |existing| && e + |end| <= |existing|
    ensures var out := existing[..b] + (zone + TrimStartNewlines(existing[e + |end|..]));
            FirstAt(out, begin, b) && FirstAt(out, end, b + q)
  {
    var rest := TrimStartNewlines(existing[e + |end|..]);
    var out, common := existing[..b] + (zone + rest), b + |begin|;
    assert out[..common] == existing[..common] by {
      assert existing[b..common] == begin == zone[..|zone| - 1][0..|begin|];
    }
    assert out[0..common] == existing[0..common];
    forall p: nat | p <= b ensures OccursAt(out, begin, p) <==> OccursAt(existing, begin, p) {
      OccursInBoth(out, 0, existing, 0, common, begin, p);
    }
    forall p: nat | p < b ensures !OccursAt(out, end, p) {
      OccursInBoth(out, 0, existing, 0, common, end, p);
    }
    hide TrimStartNewlines;
    QuotedFirst(begin, end, existing[..b], zone, rest, q);
  }

  lemma FramedRefresh(begin: string, end: string, existing: string, zone: string, b: nat, e: nat)
    requires GoodMarkers(begin, end) && FramedZone(begin, end, zone)
    requires FirstAt(existing, begin, b) && FirstAt(existing, end, e) && b < e
    ensures b <= |existing| && e + |end| <= |existing|
    ensures SpliceBetween(begin, end, existing, zone)
         == existing[..b] + (zone + TrimStartNewlines(existing[e + |end|..]))
  {
    hide TrimStartNewlines, SpliceBetween, FirstAt, OccursAt, GoodMarkers, FramedZone;
    Fits(existing, begin, b);
    Fits(existing, end, e);
    VisibleZone(begin, end, zone);
    SpliceRefreshes(begin, end, existing, zone, b, e);
    Regrouped(existing[..b], zone, TrimStartNewlines(existing[e + |end|..]));
  }

  lemma Regrouped(a: string, zone: string, b: string)
    requires zone != "" && zone == zone[..|zone| - 1] + "\n"
    ensures a + (zone[..|zone| - 1] + ("\n" + b)) == a + (zone + b)
  {
  }

  /** A refresh takes the quoted `end` for the close: the rest of the old zone stays behind as text of its own. */
  lemma QuotedRefresh(begin: string, end: string, text: string, prefix: string, rest: string, zone: string, q: nat)
    requires GoodMarkers(begin, end) && FramedZone(begin, end, zone) && QuotesEnd(end, zone, q)
    requires text == prefix + (zone + rest)
    requires FirstAt(text, begin, |prefix|) && FirstAt(text, end, |prefix| + q)
    ensures SpliceBetween(begin, end, text, zone) == prefix + (zone + (LeftOver(end, zone, q) + ("\n" + rest)))
    ensures |SpliceBetween(begin, end, text, zone)| > |text|
  {
    hide SpliceBetween, FirstAt, OccursAt, LeftOver, TrimStartNewlines;
    var z := zone[..|zone| - 1];
    FramedRefresh(begin, end, text, zone, |prefix|, |prefix| + q);
    LeftOverStays(begin, end, zone, q, "\n" + rest);
    hide FramedZone;
    assert zone == z + "\n";
    assert text[..|prefix|] == prefix && text[|prefix| + q + |end|..] == z[q + |end|..] + ("\n" + rest);
  }

  /** With a quoted `end` no refresh of a file with a zone settles: each leaves one more remainder behind the zone. */
  lemma QuoteGrows(begin: string, end: string, existing: string, zone: string, q: nat)
    requires GoodMarkers(begin, end) && FramedZone(begin, end, zone) && QuotesEnd(end, zone, q)
    requires Settled(begin, end, existing)
    ensures var out := SpliceBetween(begin, end, existing, zone);
            |SpliceBetween(begin, end, out, zone)| == |out| + |LeftOver(end, zone, q)| + 1
  {
    hide SpliceBetween, FirstAt, OccursAt, LeftOver, TrimStartNewlines, Find, FramedZone, QuotesEnd, TrimEnd;
    FindIs(existing, begin);
    FindIs(existing, end);
    if Find(existing, begin).Some? {
      var b, e := Find(existing, begin).value, Find(existing, end).value;
      FramedRefresh(begin, end, existing, zone, b, e);
      QuotedMarkers(begin, end, existing, zone, b, e, q);
      var rest := TrimStartNewlines(existing[e + |end|..]);
      QuotedRefresh(begin, end, existing[..b] + (zone + rest), existing[..b], rest, zone, q);
    } else {
      QuotedAppend(begin, end, existing, zone, q);
      var prefix := TrimEnd(existing) + "\n\n";
      assert Appended(existing, zone) == prefix + (zone + "");
      QuotedRefresh(begin, end, Appended(existing, zone), prefix, "", zone, q);
    }
  }

  lemma ZoneOpens(begin: string, end: string, prefix: string, zone: string)
    requires FramedZone(begin, end, zone)
    ensures OccursAt(prefix + zone, begin, |prefix|)
  {
    var z := zone[..|zone| - 1];
    assert (prefix + zone)[|prefix|..|prefix| + |z|] == z[0..|z|];
    OccursInBoth(prefix + zone, |prefix|, z, 0, |z|, begin, 0);
  }

  lemma {:induction false} AppendedIs(existing: string, zone: string)
    ensures var prefix := TrimEnd(existing) + "\n\n";
            |prefix| == |TrimEnd(existing)| + 2
            && Appended(existing, zone) == prefix + zone && Appended(existing, zone) == prefix + (zone + "")
  {
    hide TrimEnd;
  }

  lemma {:induction false} SpliceAppends(begin: string, end: string, existing: string, zone: string)
    requires Find(existing, begin).None? || Find(existing, end).None?
    ensures SpliceBetween(begin, end, existing, zone) == Appended(existing, zone)
  {
    hide Find;
  }

  /** A first zone appended to a file without markers. */
  lemma {:induction false} QuotedAppend(begin: string, end: string, existing: string, zone: string, q: nat)
    requires GoodMarkers(begin, end) && FramedZone(begin, end, zone) && QuotesEnd(end, zone, q)
    requires Absent(existing, begin) && Absent(existing, end)
    ensures var t, out := |TrimEnd(existing)| + 2, SpliceBetween(begin, end, existing, zone);
            out == Appended(existing, zone) && FirstAt(out, begin, t) && FirstAt(out, end, t + q)
  {
    hide Find, SpliceBetween, OccursAt, TrimEnd, Appended, FramedZone, QuotesEnd, GoodMarkers, Absent;
    var prefix := TrimEnd(existing) + "\n\n";
    AppendedIs(existing, zone);
    FindAbsent(existing, begin);
    SpliceAppends(begin, end, existing, zone);
    MarkerShapes(begin, end);
    NoneAhead(existing, zone, begin);
    NoneAhead(existing, zone, end);
    ZoneOpens(begin, end, prefix, zone);
    QuotedFirst(begin, end, prefix, zone, "", q);
  }

  // ---------------------------------------------------------------- exactly when a splice settles

  /** After the append the stray `begin` is still the first one, and the quoted `end` the first of its kind. */
  lemma {:induction false} StrayBeginAhead(begin: string, end: string, existing: string, zone: string, b: nat, q: nat)
    requires GoodMarkers(begin, end) && FramedZone(begin, end, zone) && QuotesEnd(end, zone, q)
    requires FirstAt(existing, begin, b) && Absent(existing, end)
    ensures var t, out := |TrimEnd(existing)| + 2, Appended(existing, zone);
            b + 2 < t && FirstAt(out, begin, b) && FirstAt(out, end, t + q)
  {
    hide Find, OccursAt, TrimEnd, Appended, FramedZone, QuotesEnd, GoodMarkers, Absent;
    var prefix := TrimEnd(existing) + "\n\n";
    AppendedIs(existing, zone);
    MarkerShapes(begin, end);
    NoneAhead(existing, zone, end);
    AppendKeepsOccurrences(existing, zone, begin, b);
    forall p: nat | p < b ensures !OccursAt(Appended(existing, zone), begin, p) {
      AppendKeepsOccurrences(existing, zone, begin, p);
    }
    QuotedFirst(begin, end, prefix, zone, "", q);
  }

  /** A lone `begin` with a quoted `end`: the second run moves the first `end` of the file. */
  lemma {:induction false} StrayBeginMoves(begin: string, end: string, existing: string, zone: string, b: nat, q: nat)
    requires GoodMarkers(begin, end) && FramedZone(begin, end, zone) && QuotesEnd(end, zone, q)
    requires FirstAt(existing, begin, b) && Absent(existing, end)
    ensures var out := SpliceBetween(begin, end, existing, zone);
            SpliceBetween(begin, end, out, zone) != out
  {
    hide Find, TrimEnd, Appended, TrimStartNewlines, OccursAt, FramedZone, QuotesEnd, GoodMarkers, SpliceBetween;
    hide Absent, FirstAt;
    FindAbsent(existing, end);
    SpliceAppends(begin, end, existing, zone);
    var e, out := |TrimEnd(existing)| + 2 + q, Appended(existing, zone);
    StrayBeginAhead(begin, end, existing, zone, b, q);
    FramedRefresh(begin, end, out, zone, b, e);
    QuotedMarkers(begin, end, out, zone, b, e, q);
    OnlyOneFirst(SpliceBetween(begin, end, out, zone), out, end, b + q, e);
  }

  lemma OnlyOneFirst(x: string, y: string, pat: string, p: nat, q: nat)
    requires FirstAt(x, pat, p) && FirstAt(y, pat, q) && p < q
    ensures x != y
  {
  }

  lemma QuotedNeverSettles(begin: string, end: string, existing: string, zone: string)
    requires GoodMarkers(begin, end) && FramedZone(begin, end, zone) && !WellFormedZone(begin, end, zone)
    ensures var out := SpliceBetween(begin, end, existing, zone); SpliceBetween(begin, end, out, zone) != out
  {
    QuoteOrNone(begin, end, zone);
    var q := Find(zone[..|zone| - 1], end).value;
    hide SpliceBetween, FramedZone, WellFormedZone, QuotesEnd, LeftOver, Find, GoodMarkers, OccursAt;
    FindIs(existing, begin);
    FindIs(existing, end);
    if Settled(begin, end, existing) {
      QuoteGrows(begin, end, existing, zone, q);
    } else if Find(existing, end).Some? {
      NotBoth(begin, end, existing, zone, Find(existing, end).value);
      StrayEndGrows(begin, end, existing, zone, Find(existing, end).value);
    } else {
      StrayBeginMoves(begin, end, existing, zone, Find(existing, begin).value, q);
    }
  }

  /** For any zone: running the generator twice equals running it once exactly on settled files, with no quoted `end`. */
  lemma SpliceIdempotentIff(begin: string, end: string, existing: string, zone: string)
    requires GoodMarkers(begin, end) && FramedZone(begin, end, zone)
    ensures var out := SpliceBetween(begin, end, existing, zone);
            SpliceBetween(begin, end, out, zone) == out <==>
            Settled(begin, end, existing) && WellFormedZone(begin, end, zone)
  {
    if WellFormedZone(begin, end, zone) {
      SpliceIdempotentIffSettled(begin, end, existing, zone);
    } else {
      QuotedNeverSettles(begin, end, existing, zone);
    }
  }
}
