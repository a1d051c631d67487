/**
 The AGENTS.md compiler (src/agentsmd.rs): splicing the generated zone into a handwritten file, the
 hash embedded in the zone and the freshness check that reads it back.
 */
module AgentsMd {
  import opened Text
  import opened Strings

  const BEGIN_MARKER := "<!-- ARCH:GENERATED"
  const END_MARKER := "<!-- ARCH:END -->"
  const COMMENT_CLOSE := "-->"

  // ---------------------------------------------------------------- the splice

  function Splice(existing: string, zone: string): string {
    SpliceBetween(BEGIN_MARKER, END_MARKER, existing, zone)
  }

  /** The splice for any pair of markers. */
  function SpliceBetween(begin: string, end: string, existing: string, zone: string): string {
    var b, e := Find(existing, begin), Find(existing, end);
    if b.Some? && e.Some? && b.value < e.value
    then existing[..b.value] + (TrimEnd(zone) + ("\n" + TrimStartNewlines(existing[e.value + |end|..])))
    else TrimEnd(existing) + ("\n\n" + zone)
  }

  /** What the proofs need of the markers: visible at both ends, no line break, `end` not longer. */
  ghost predicate GoodMarkers(begin: string, end: string) {
    && 0 < |end| <= |begin|
    && '\n' !in begin && '\n' !in end
    && !IsWhitespace(begin[|begin| - 1]) && !IsWhitespace(end[|end| - 1])
  }

  /** Any zone: `begin` opens it, `end` closes it, one line break follows. */
  ghost predicate FramedZone(begin: string, end: string, zone: string) {
    && zone != "" && zone[|zone| - 1] == '\n'
    && var z := zone[..|zone| - 1];
       && |begin| + |end| <= |z|
       && OccursAt(z, begin, 0) && OccursAt(z, end, |z| - |end|) && !OccursAt(z, end, 0)
  }

  /** A well-formed zone: its only `end` closes it. */
  ghost predicate WellFormedZone(begin: string, end: string, zone: string) {
    FramedZone(begin, end, zone) && FirstAt(zone[..|zone| - 1], end, |zone| - 1 - |end|)
  }

  /** The only `begin` opens the zone. */
  ghost predicate OneBegin(begin: string, zone: string)
    requires zone != ""
  {
    var z := zone[..|zone| - 1];
    forall q: nat | 0 < q :: !OccursAt(z, begin, q)
  }

  /** A file the splice settles at once: either no marker at all, or `begin` first and then `end`. */
  predicate Settled(begin: string, end: string, existing: string) {
    var b, e := Find(existing, begin), Find(existing, end);
    (b.None? && e.None?) || (b.Some? && e.Some? && b.value < e.value)
  }

  /** The text outside the zone: before it and after it. */
  datatype Outside = Outside(before: string, after: string)

  function Handwritten(begin: string, end: string, text: string): Outside {
    var b, e := Find(text, begin), Find(text, end);
    if b.Some? && e.Some? && b.value < e.value
    then Outside(text[..b.value], text[e.value + |end|..])
    else Outside(text, "")
  }

  lemma Sizes(begin: string, end: string, zone: string)
    requires GoodMarkers(begin, end) && WellFormedZone(begin, end, zone)
    ensures 0 < |end| <= |begin| && |begin| + |end| < |zone| && FramedZone(begin, end, zone)
    ensures zone == zone[..|zone| - 1] + "\n"
  {
  }

  lemma Fits(text: string, pat: string, p: nat)
    requires FirstAt(text, pat, p)
    ensures p + |pat| <= |text|
  {
  }

  lemma {:induction false} ZoneTrims(begin: string, end: string, zone: string)
    requires GoodMarkers(begin, end) && FramedZone(begin, end, zone)
    ensures TrimEnd(zone) == zone[..|zone| - 1]
  {
    var z := zone[..|zone| - 1];
    assert z[|z| - 1] == z[|z| - |end|..|z|][|end| - 1];
    assert zone == z + "\n";
    TrimEndIs(z, "\n");
  }

  /**
   A text that begins like a marker-free (or marker-preceded) prefix, followed by the zone: the zone's
   markers are the first ones.
   */
  lemma ZoneFirst(begin: string, end: string, prefix: string, z: string, suffix: string)
    requires 0 < |end| <= |begin| && |begin| + |end| <= |z|
    requires OccursAt(z, begin, 0) && FirstAt(z, end, |z| - |end|)
    requires forall q: nat | q < |prefix| ::
               !OccursAt(prefix + (z + suffix), begin, q) && !OccursAt(prefix + (z + suffix), end, q)
    ensures FirstAt(prefix + (z + suffix), begin, |prefix|)
    ensures FirstAt(prefix + (z + suffix), end, |prefix| + |z| - |end|)
  {
    var text := prefix + (z + suffix);
    assert text[|prefix|..|prefix| + |z|] == z[0..|z|];
    OccursInBoth(text, |prefix|, z, 0, |z|, begin, 0);
    OccursInBoth(text, |prefix|, z, 0, |z|, end, |z| - |end|);
    forall q: nat | |prefix| <= q < |prefix| + |z| - |end| ensures !OccursAt(text, end, q) {
      OccursInBoth(text, |prefix|, z, 0, |z|, end, q - |prefix|);
    }
  }

  /** What a refresh writes. */
  function Refreshed(end: string, existing: string, zone: string, b: nat, e: nat): string
    requires b <= |existing| && e + |end| <= |existing| && zone != ""
  {
    existing[..b] + (zone[..|zone| - 1] + ("\n" + TrimStartNewlines(existing[e + |end|..])))
  }

  /** The old markers bound the refreshed zone: the new one's are found in their place. */
  lemma RefreshedMarkers(begin: string, end: string, existing: string, zone: string, b: nat, e: nat)
    requires GoodMarkers(begin, end) && WellFormedZone(begin, end, zone)
    requires FirstAt(existing, begin, b) && FirstAt(existing, end, e) && b < e
    ensures var out := Refreshed(end, existing, zone, b, e);
            FirstAt(out, begin, b) && FirstAt(out, end, b + |zone| - 1 - |end|)
  {
    var z := zone[..|zone| - 1];
    var rest := "\n" + TrimStartNewlines(existing[e + |end|..]);
    var out := existing[..b] + (z + rest);
    var common := b + |begin|;
    SameUpToZone(begin, end, existing, zone, rest, b);
    hide TrimStartNewlines, OccursAt, WellFormedZone;
    forall q: nat | q < b ensures !OccursAt(out, begin, q) && !OccursAt(out, end, q) {
      OccursInBoth(out, 0, existing, 0, common, begin, q);
      OccursInBoth(out, 0, existing, 0, common, end, q);
    }
    ZoneShape(begin, end, zone);
    ZoneFirst(begin, end, existing[..b], z, rest);
  }

  lemma ZoneShape(begin: string, end: string, zone: string)
    requires WellFormedZone(begin, end, zone)
    ensures zone != "" && zone[|zone| - 1] == '\n'
    ensures var z := zone[..|zone| - 1]; OccursAt(z, begin, 0) && FirstAt(z, end, |z| - |end|) && |begin| + |end| <= |z|
  {
  }

  /** A refreshed file is the old one up to the end of the first `begin`. */
  lemma SameUpToZone(begin: string, end: string, existing: string, zone: string, rest: string, b: nat)
    requires FramedZone(begin, end, zone) && OccursAt(existing, begin, b)
    ensures var out, n := existing[..b] + (zone[..|zone| - 1] + rest), b + |begin|;
            n <= |out| && n <= |existing| && out[0..n] == existing[0..n]
  {
    var z := zone[..|zone| - 1];
    var out, n := existing[..b] + (z + rest), b + |begin|;
    assert out[b..n] == z[0..|begin|] == existing[b..n];
    assert out[0..n] == existing[..b] + out[b..n] && existing[0..n] == existing[..b] + existing[b..n];
  }

  lemma SpliceRefreshes(begin: string, end: string, existing: string, zone: string, b: nat, e: nat)
    requires GoodMarkers(begin, end) && FramedZone(begin, end, zone)
    requires FirstAt(existing, begin, b) && FirstAt(existing, end, e) && b < e
    ensures SpliceBetween(begin, end, existing, zone) == Refreshed(end, existing, zone, b, e)
  {
    hide GoodMarkers, FirstAt, OccursAt, TrimEnd, TrimStartNewlines, Find;
    ZoneTrims(begin, end, zone);
    FindFirst(existing, begin, b);
    FindFirst(existing, end, e);
  }

  /** Refreshing a refreshed file changes nothing. */
  lemma RefreshIdempotent(begin: string, end: string, existing: string, zone: string, b: nat, e: nat)
    requires GoodMarkers(begin, end) && WellFormedZone(begin, end, zone)
    requires FirstAt(existing, begin, b) && FirstAt(existing, end, e) && b < e
    ensures var out := SpliceBetween(begin, end, existing, zone);
            SpliceBetween(begin, end, out, zone) == out
  {
    hide GoodMarkers, WellFormedZone, FirstAt, OccursAt, TrimEnd, TrimStartNewlines, Find;
    Sizes(begin, end, zone);
    Fits(existing, begin, b);
    Fits(existing, end, e);
    var out := Refreshed(end, existing, zone, b, e);
    var z := zone[..|zone| - 1];
    var after := TrimStartNewlines(existing[e + |end|..]);
    SpliceRefreshes(begin, end, existing, zone, b, e);
    RefreshedMarkers(begin, end, existing, zone, b, e);
    var e2 := b + |z| - |end|;
    SpliceRefreshes(begin, end, out, zone, b, e2);
    assert out[..b] == existing[..b] && out[e2 + |end|..] == "\n" + after;
    TrimNewlinesOnce(existing[e + |end|..]);
  }

  // ---------------------------------------------------------------- appending a zone

  /** What an append writes: the trimmed file, a blank line, the zone. */
  function Appended(existing: string, zone: string): string {
    TrimEnd(existing) + ("\n\n" + zone)
  }

  lemma {:induction false} AppendedPrefix(existing: string, zone: string, b: nat)
    requires b <= |TrimEnd(existing)|
    ensures b <= |existing| && b <= |Appended(existing, zone)|
    ensures Appended(existing, zone)[..b] == existing[..b]
  {
    var t := TrimEnd(existing);
    assert t <= existing && t <= Appended(existing, zone);
    hide Appended, TrimEnd;
    assert t[..b] == existing[..b];
  }

  /** Appending neither adds nor hides an occurrence before the new zone. */
  lemma {:induction false} AppendKeepsOccurrences(existing: string, zone: string, pat: string, q: nat)
    requires pat != "" && '\n' !in pat && !IsWhitespace(pat[|pat| - 1])
    ensures OccursAt(existing, pat, q) ==> q + |pat| <= |TrimEnd(existing)|
    ensures q < |TrimEnd(existing)| + 2 ==>
              (OccursAt(Appended(existing, zone), pat, q) <==> OccursAt(existing, pat, q))
  {
    var t, out := TrimEnd(existing), Appended(existing, zone);
    var last := q + |pat| - 1;
    if last < |existing| {
      assert existing[q..q + |pat|][|pat| - 1] == existing[last];
    }
    if last < |t| {
      assert out[0..|t|] == t == existing[0..|t|];
      OccursInBoth(out, 0, existing, 0, |t|, pat, q);
    } else if q < |t| + 2 {
      var i := if q <= |t| then |t| else q;
      assert out[i] == '\n';
      NotAcross(out, pat, q, i);
    }
  }

  lemma MarkerShapes(begin: string, end: string)
    requires GoodMarkers(begin, end)
    ensures begin != "" && '\n' !in begin && !IsWhitespace(begin[|begin| - 1])
    ensures end != "" && '\n' !in end && !IsWhitespace(end[|end| - 1])
  {
  }

  lemma {:induction false} NoneAhead(existing: string, zone: string, pat: string)
    requires pat != "" && '\n' !in pat && !IsWhitespace(pat[|pat| - 1]) && Absent(existing, pat)
    ensures forall p: nat | p < |TrimEnd(existing)| + 2 :: !OccursAt(Appended(existing, zone), pat, p)
  {
    hide OccursAt, TrimEnd, Appended;
    forall p: nat | p < |TrimEnd(existing)| + 2 ensures !OccursAt(Appended(existing, zone), pat, p) {
      AppendKeepsOccurrences(existing, zone, pat, p);
    }
  }

  lemma {:induction false} AppendedMarkers(begin: string, end: string, existing: string, zone: string)
    requires GoodMarkers(begin, end) && WellFormedZone(begin, end, zone)
    requires Absent(existing, begin) && Absent(existing, end)
    ensures var t := |TrimEnd(existing)| + 2;
            FirstAt(Appended(existing, zone), begin, t) && FirstAt(Appended(existing, zone), end, t + |zone| - 1 - |end|)
  {
    var prefix, z := TrimEnd(existing) + "\n\n", zone[..|zone| - 1];
    assert Appended(existing, zone) == prefix + (z + "\n") by { assert zone == z + "\n"; }
    Sizes(begin, end, zone);
    ZoneShape(begin, end, zone);
    MarkerShapes(begin, end);
    hide TrimEnd, Appended, OccursAt, Absent, FirstAt, GoodMarkers, WellFormedZone;
    NoneAhead(existing, zone, begin);
    NoneAhead(existing, zone, end);
    ZoneFirst(begin, end, prefix, z, "\n");
  }

  /** A file that ends in the zone and holds nothing else of it is a fixed point. */
  lemma FixedWhenZoneLast(begin: string, end: string, prefix: string, zone: string)
    requires GoodMarkers(begin, end) && WellFormedZone(begin, end, zone)
    requires FirstAt(prefix + zone, begin, |prefix|) && FirstAt(prefix + zone, end, |prefix| + |zone| - 1 - |end|)
    ensures SpliceBetween(begin, end, prefix + zone, zone) == prefix + zone
  {
    hide GoodMarkers, WellFormedZone, FirstAt, OccursAt, TrimEnd, Find;
    Sizes(begin, end, zone);
    var out, z := prefix + zone, zone[..|zone| - 1];
    var e := |prefix| + |z| - |end|;
    SpliceRefreshes(begin, end, out, zone, |prefix|, e);
    assert out[..|prefix|] == prefix;
    assert out[e + |end|..] == "\n" && "\n"[1..] == "";
    assert zone == z + "\n";
  }

  /** Refreshing right after an append changes nothing. */
  lemma AppendIdempotent(begin: string, end: string, existing: string, zone: string)
    requires GoodMarkers(begin, end) && WellFormedZone(begin, end, zone)
    requires Absent(existing, begin) && Absent(existing, end)
    ensures var out := SpliceBetween(begin, end, existing, zone);
            out == Appended(existing, zone) && SpliceBetween(begin, end, out, zone) == out
  {
    hide GoodMarkers, FirstAt, OccursAt, TrimEnd, TrimStartNewlines, Find, Absent;
    FindAbsent(existing, begin);
    FindAbsent(existing, end);
    AppendedMarkers(begin, end, existing, zone);
    var prefix := TrimEnd(existing) + "\n\n";
    assert Appended(existing, zone) == prefix + zone;
    FixedWhenZoneLast(begin, end, prefix, zone);
  }

  lemma VisibleZone(begin: string, end: string, zone: string)
    requires GoodMarkers(begin, end) && FramedZone(begin, end, zone)
    ensures zone != ""
    ensures var z := zone[..|zone| - 1]; zone == z + "\n" && z != "" && !IsWhitespace(z[|z| - 1])
  {
    ZoneTrims(begin, end, zone);
  }

  /** A lone `end`, or `end` before `begin`: every run appends one more zone. */
  lemma StrayEndGrows(begin: string, end: string, existing: string, zone: string, e: nat)
    requires GoodMarkers(begin, end) && FramedZone(begin, end, zone)
    requires FirstAt(existing, end, e)
    requires forall q: nat | q <= e :: !OccursAt(existing, begin, q)
    ensures var out := SpliceBetween(begin, end, existing, zone);
            out == Appended(existing, zone)
            && SpliceBetween(begin, end, out, zone) == Appended(out, zone) && |Appended(out, zone)| > |out|
  {
    hide Find, OccursAt, FramedZone, TrimEnd;
    FindIs(existing, begin);
    FindFirst(existing, end, e);
    var out := Appended(existing, zone);
    AppendKeepsOccurrences(existing, zone, end, e);
    forall q: nat | q <= e ensures !OccursAt(out, begin, q) && (q < e ==> !OccursAt(out, end, q)) {
      AppendKeepsOccurrences(existing, zone, begin, q);
      AppendKeepsOccurrences(existing, zone, end, q);
    }
    FindIs(out, begin);
    FindFirst(out, end, e);
    VisibleZone(begin, end, zone);
    TrimAppended(existing, zone, zone[..|zone| - 1]);
  }

  lemma TrimAppended(existing: string, zone: string, z: string)
    requires zone == z + "\n" && z != "" && !IsWhitespace(z[|z| - 1])
    ensures |TrimEnd(Appended(existing, zone))| == |Appended(existing, zone)| - 1
  {
    var t := TrimEnd(existing) + ("\n\n" + z);
    assert Appended(existing, zone) == t + "\n";
    TrimEndIs(t, "\n");
  }

  /** A lone `begin`: the second run swallows all that stood between it and the appended zone. */
  lemma StrayBeginSwallows(begin: string, end: string, existing: string, zone: string, b: nat)
    requires GoodMarkers(begin, end) && WellFormedZone(begin, end, zone)
    requires FirstAt(existing, begin, b) && Absent(existing, end)
    ensures var out := SpliceBetween(begin, end, existing, zone);
            out == Appended(existing, zone)
            && SpliceBetween(begin, end, out, zone) == existing[..b] + zone && |existing[..b] + zone| < |out|
  {
    hide TrimEnd, TrimStartNewlines, Find;
    FindFirst(existing, begin, b);
    FindAbsent(existing, end);
    var out, prefix := Appended(existing, zone), TrimEnd(existing) + "\n\n";
    assert out == prefix + zone;
    StrayBeginFirst(begin, end, existing, zone, b);
    CutToZone(begin, end, out, zone, b, |prefix|);
    AppendedPrefix(existing, zone, b);
  }

  /** After the append the stray `begin` is still the first one, and the zone's `end` the only one. */
  lemma {:induction false} StrayBeginFirst(begin: string, end: string, existing: string, zone: string, b: nat)
    requires GoodMarkers(begin, end) && WellFormedZone(begin, end, zone)
    requires FirstAt(existing, begin, b) && Absent(existing, end)
    ensures var t, out := |TrimEnd(existing)|, Appended(existing, zone);
            b + |begin| <= t && FirstAt(out, begin, b) && FirstAt(out, end, t + 2 + |zone| - 1 - |end|)
  {
    hide TrimStartNewlines, Find;
    var out, z := Appended(existing, zone), zone[..|zone| - 1];
    var prefix := TrimEnd(existing) + "\n\n";
    assert out == prefix + (z + "\n") by { Sizes(begin, end, zone); }
    AppendKeepsOccurrences(existing, zone, begin, b);
    forall q: nat | q < |prefix| ensures !OccursAt(out, end, q) && (q < b ==> !OccursAt(out, begin, q)) {
      AppendKeepsOccurrences(existing, zone, begin, q);
      AppendKeepsOccurrences(existing, zone, end, q);
    }
    EndOfZoneFirst(end, prefix, z);
  }

  /** Splicing a file whose tail is the zone: everything from the first `begin` on is replaced. */
  lemma CutToZone(begin: string, end: string, text: string, zone: string, b: nat, p: nat)
    requires GoodMarkers(begin, end) && WellFormedZone(begin, end, zone)
    requires p <= |text| && text[p..] == zone
    requires FirstAt(text, begin, b) && FirstAt(text, end, p + |zone| - 1 - |end|) && b < p
    ensures SpliceBetween(begin, end, text, zone) == text[..b] + zone
  {
    hide GoodMarkers, WellFormedZone, FirstAt, OccursAt, TrimEnd, Find;
    Sizes(begin, end, zone);
    var e := p + |zone| - 1 - |end|;
    SpliceRefreshes(begin, end, text, zone, b, e);
    assert text[e + |end|..] == zone[|zone| - 1..] == "\n" && "\n"[1..] == "";
    assert zone == zone[..|zone| - 1] + "\n";
  }

  lemma EndOfZoneFirst(end: string, prefix: string, z: string)
    requires 0 < |end| <= |z| && FirstAt(z, end, |z| - |end|)
    requires forall q: nat | q < |prefix| :: !OccursAt(prefix + (z + "\n"), end, q)
    ensures FirstAt(prefix + (z + "\n"), end, |prefix| + |z| - |end|)
  {
    var text := prefix + (z + "\n");
    assert text[|prefix|..|prefix| + |z|] == z[0..|z|];
    OccursInBoth(text, |prefix|, z, 0, |z|, end, |z| - |end|);
    forall q: nat | |prefix| <= q < |prefix| + |z| - |end| ensures !OccursAt(text, end, q) {
      OccursInBoth(text, |prefix|, z, 0, |z|, end, q - |prefix|);
    }
  }

  // ---------------------------------------------------------------- what the splice guarantees

  /** Running the generator twice equals running it once exactly on settled files. */
  lemma SpliceIdempotentIffSettled(begin: string, end: string, existing: string, zone: string)
    requires GoodMarkers(begin, end) && WellFormedZone(begin, end, zone)
    ensures var out := SpliceBetween(begin, end, existing, zone);
            SpliceBetween(begin, end, out, zone) == out <==> Settled(begin, end, existing)
  {
    FindIs(existing, begin);
    FindIs(existing, end);
    var b, e := Find(existing, begin), Find(existing, end);
    if b.Some? && e.Some? && b.value < e.value {
      RefreshIdempotent(begin, end, existing, zone, b.value, e.value);
    } else if b.None? && e.None? {
      AppendIdempotent(begin, end, existing, zone);
    } else if e.Some? {
      NotBoth(begin, end, existing, zone, e.value);
      StrayEndGrows(begin, end, existing, zone, e.value);
    } else {
      StrayBeginSwallows(begin, end, existing, zone, b.value);
    }
  }

  /** The two markers never start at the same place: in the zone `begin` stands where `end` does not. */
  lemma NotBoth(begin: string, end: string, text: string, zone: string, p: nat)
    requires GoodMarkers(begin, end) && FramedZone(begin, end, zone)
    ensures !(OccursAt(text, begin, p) && OccursAt(text, end, p))
  {
    var z := zone[..|zone| - 1];
    if OccursAt(text, begin, p) {
      assert text[p..p + |begin|] == z[0..|begin|];
      OccursInBoth(text, p, z, 0, |begin|, end, 0);
    }
  }

  /** On a settled file the text outside the zone survives, up to the line breaks next to the zone. */
  lemma {:induction false} SpliceKeepsHandwritten(begin: string, end: string, existing: string, zone: string)
    requires GoodMarkers(begin, end) && WellFormedZone(begin, end, zone)
    requires Settled(begin, end, existing)
    ensures var was := Handwritten(begin, end, existing);
            Handwritten(begin, end, SpliceBetween(begin, end, existing, zone)) ==
            if Find(existing, begin).Some?
            then Outside(was.before, "\n" + TrimStartNewlines(was.after))
            else Outside(TrimEnd(was.before) + "\n\n", "\n")
  {
    hide GoodMarkers, WellFormedZone, FirstAt, OccursAt, TrimEnd, TrimStartNewlines, Find, Absent;
    FindIs(existing, begin);
    FindIs(existing, end);
    if Find(existing, begin).Some? {
      RefreshKeepsHandwritten(begin, end, existing, zone, Find(existing, begin).value, Find(existing, end).value);
    } else {
      AppendKeepsHandwritten(begin, end, existing, zone);
    }
  }

  lemma RefreshKeepsHandwritten(begin: string, end: string, existing: string, zone: string, b: nat, e: nat)
    requires GoodMarkers(begin, end) && WellFormedZone(begin, end, zone)
    requires FirstAt(existing, begin, b) && FirstAt(existing, end, e) && b < e
    ensures e + |end| <= |existing|
    ensures Handwritten(begin, end, SpliceBetween(begin, end, existing, zone))
         == Outside(existing[..b], "\n" + TrimStartNewlines(existing[e + |end|..]))
  {
    hide GoodMarkers, WellFormedZone, FirstAt, OccursAt, TrimEnd, TrimStartNewlines, Find, SpliceBetween, Handwritten;
    Sizes(begin, end, zone);
    Fits(existing, begin, b);
    Fits(existing, end, e);
    SpliceRefreshes(begin, end, existing, zone, b, e);
    RefreshedMarkers(begin, end, existing, zone, b, e);
    var out := Refreshed(end, existing, zone, b, e);
    OutsideIs(begin, end, out, b, b + |zone| - 1 - |end|);
    assert out[..b] == existing[..b];
    assert out[b + |zone| - 1..] == "\n" + TrimStartNewlines(existing[e + |end|..]);
  }

  lemma {:induction false} AppendKeepsHandwritten(begin: string, end: string, existing: string, zone: string)
    requires GoodMarkers(begin, end) && WellFormedZone(begin, end, zone)
    requires Absent(existing, begin) && Absent(existing, end)
    ensures Handwritten(begin, end, SpliceBetween(begin, end, existing, zone))
         == Outside(TrimEnd(existing) + "\n\n", "\n")
  {
    hide GoodMarkers, WellFormedZone, FirstAt, OccursAt, Absent, Find, SpliceBetween, Handwritten;
    hide TrimEnd, TrimStartNewlines;
    Sizes(begin, end, zone);
    AppendIdempotent(begin, end, existing, zone);
    AppendedMarkers(begin, end, existing, zone);
    var prefix := TrimEnd(existing) + "\n\n";
    var out := Appended(existing, zone);
    assert out == prefix + zone;
    OutsideIs(begin, end, out, |prefix|, |prefix| + |zone| - 1 - |end|);
    assert out[..|prefix|] == prefix && out[|prefix| + |zone| - 1..] == "\n";
  }

  lemma OutsideIs(begin: string, end: string, text: string, b: nat, e: nat)
    requires FirstAt(text, begin, b) && FirstAt(text, end, e) && b < e
    ensures e + |end| <= |text| && Handwritten(begin, end, text) == Outside(text[..b], text[e + |end|..])
  {
    FindFirst(text, begin, b);
    FindFirst(text, end, e);
  }

  /** `p` is the one place where `pat` occurs. */
  ghost predicate OnlyAt(text: string, pat: string, p: nat) {
    forall q: nat :: OccursAt(text, pat, q) <==> q == p
  }

  /** A text in which the zone follows a prefix without markers of its own and a marker-free rest follows it. */
  lemma OnlyZone(begin: string, end: string, prefix: string, zone: string, rest: string)
    requires GoodMarkers(begin, end) && WellFormedZone(begin, end, zone) && OneBegin(begin, zone)
    requires Absent(rest, begin) && Absent(rest, end)
    requires var text := prefix + (zone + rest);
             FirstAt(text, begin, |prefix|) && FirstAt(text, end, |prefix| + |zone| - 1 - |end|)
    ensures var text := prefix + (zone + rest);
            OnlyAt(text, begin, |prefix|) && OnlyAt(text, end, |prefix| + |zone| - 1 - |end|)
  {
    var text, z := prefix + (zone + rest), zone[..|zone| - 1];
    forall q: nat | q > |prefix| ensures !OccursAt(text, begin, q) {
      OccursAfterStart(text, prefix, zone, rest, begin, q);
      assert forall j: nat | 0 < j :: !OccursAt(z, begin, j);
    }
    forall q: nat | q > |prefix| + |z| - |end| ensures !OccursAt(text, end, q) {
      OccursAfterStart(text, prefix, zone, rest, end, q);
      assert forall j: nat | j > |z| - |end| :: !OccursAt(z, end, j);
    }
  }

  /** From the zone on, a marker occurs inside the zone or inside the rest, never across the line break. */
  lemma OccursAfterStart(text: string, prefix: string, zone: string, rest: string, pat: string, q: nat)
    requires text == prefix + (zone + rest) && zone != "" && zone[|zone| - 1] == '\n' && '\n' !in pat && pat != ""
    requires Absent(rest, pat) && q >= |prefix|
    ensures OccursAt(text, pat, q) ==> OccursAt(zone[..|zone| - 1], pat, q - |prefix|)
  {
    var z := zone[..|zone| - 1];
    var brk := |prefix| + |z|;
    assert text[brk] == '\n';
    if q + |pat| <= brk {
      assert text[|prefix|..brk] == z[0..|z|];
      OccursInBoth(text, |prefix|, z, 0, |z|, pat, q - |prefix|);
    } else if q <= brk {
      NotAcross(text, pat, q, brk);
    } else if q + |pat| <= |text| {
      assert text[brk + 1..|text|] == rest[0..|rest|];
      OccursInBoth(text, brk + 1, rest, 0, |rest|, pat, q - (brk + 1));
    }
  }

  /** Exactly one zone stands in the result when no marker stands after the old zone, nor a second `begin` in the new. */
  lemma {:induction false} SpliceLeavesOneZone(begin: string, end: string, existing: string, zone: string)
    requires GoodMarkers(begin, end) && WellFormedZone(begin, end, zone) && OneBegin(begin, zone)
    requires Settled(begin, end, existing)
    requires Absent(TrimStartNewlines(Handwritten(begin, end, existing).after), begin)
    requires Absent(TrimStartNewlines(Handwritten(begin, end, existing).after), end)
    ensures var out := SpliceBetween(begin, end, existing, zone);
            var p := if Find(existing, begin).Some? then Find(existing, begin).value else |TrimEnd(existing)| + 2;
            OnlyAt(out, begin, p) && OnlyAt(out, end, p + |zone| - 1 - |end|)
  {
    hide GoodMarkers, WellFormedZone, OneBegin, FirstAt, OccursAt, TrimEnd, TrimStartNewlines, Find, Absent, OnlyAt;
    FindIs(existing, begin);
    FindIs(existing, end);
    if Find(existing, begin).Some? {
      RefreshLeavesOneZone(begin, end, existing, zone, Find(existing, begin).value, Find(existing, end).value);
    } else {
      AppendIdempotent(begin, end, existing, zone);
      AppendedMarkers(begin, end, existing, zone);
      var prefix := TrimEnd(existing) + "\n\n";
      assert Appended(existing, zone) == prefix + (zone + "");
      NothingInEmpty(begin, end);
      OnlyZone(begin, end, prefix, zone, "");
    }
  }

  lemma RefreshLeavesOneZone(begin: string, end: string, existing: string, zone: string, b: nat, e: nat)
    requires GoodMarkers(begin, end) && WellFormedZone(begin, end, zone) && OneBegin(begin, zone)
    requires FirstAt(existing, begin, b) && FirstAt(existing, end, e) && b < e && e + |end| <= |existing|
    requires Absent(TrimStartNewlines(existing[e + |end|..]), begin)
    requires Absent(TrimStartNewlines(existing[e + |end|..]), end)
    ensures var out := SpliceBetween(begin, end, existing, zone);
            OnlyAt(out, begin, b) && OnlyAt(out, end, b + |zone| - 1 - |end|)
  {
    hide GoodMarkers, WellFormedZone, FirstAt, OccursAt, TrimEnd, TrimStartNewlines, Find, Absent, OnlyAt, SpliceBetween;
    Sizes(begin, end, zone);
    Fits(existing, begin, b);
    var rest := TrimStartNewlines(existing[e + |end|..]);
    SpliceRefreshes(begin, end, existing, zone, b, e);
    RefreshedMarkers(begin, end, existing, zone, b, e);
    assert Refreshed(end, existing, zone, b, e) == existing[..b] + (zone + rest);
    OnlyZone(begin, end, existing[..b], zone, rest);
  }

  lemma NothingInEmpty(begin: string, end: string)
    requires GoodMarkers(begin, end)
    ensures Absent("", begin) && Absent("", end)
  {
  }
}
