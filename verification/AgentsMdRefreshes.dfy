/** What any number of refreshes leaves of a handwritten file (src/agentsmd.rs). */
module AgentsMdRefreshes {
  import opened Strings
  import opened AgentsMd

  /** One refresh after another, each with a zone of its own. */
  function RefreshAll(begin: string, end: string, existing: string, zones: seq<string>): string
    decreases |zones|
  {
    if zones == [] then existing
    else RefreshAll(begin, end, SpliceBetween(begin, end, existing, zones[0]), zones[1..])
  }

  ghost predicate ZonesFor(begin: string, end: string, zones: seq<string>) {
    GoodMarkers(begin, end) && forall z | z in zones :: WellFormedZone(begin, end, z)
  }

  predicate EndsWith(s: string, t: string) {
    |t| <= |s| && s[|s| - |t|..] == t
  }

  /** The handwritten text is still outside the zone, up to the blanks that are trimmed where the zone begins and ends. */
  predicate Survives(was: Outside, now: Outside) {
    TrimEnd(was.before) <= now.before && EndsWith(now.after, TrimStartNewlines(was.after))
  }

  /** `begin` first, then `end`. */
  predicate HasZone(begin: string, end: string, text: string) {
    var b, e := Find(text, begin), Find(text, end);
    b.Some? && e.Some? && b.value < e.value
  }

  lemma ZonesShift(begin: string, end: string, zones: seq<string>)
    requires ZonesFor(begin, end, zones) && zones != []
    ensures GoodMarkers(begin, end) && WellFormedZone(begin, end, zones[0]) && ZonesFor(begin, end, zones[1..])
  {
    hide WellFormedZone, GoodMarkers;
    assert zones[0] in zones && forall z | z in zones[1..] :: z in zones;
  }

  // ---------------------------------------------------------------- files with a zone

  /** A refresh of a file with a zone, and the first of a file without markers, leaves a file with a zone. */
  lemma ZoneStays(begin: string, end: string, existing: string, zone: string)
    requires GoodMarkers(begin, end) && WellFormedZone(begin, end, zone) && Settled(begin, end, existing)
    ensures HasZone(begin, end, SpliceBetween(begin, end, existing, zone))
  {
    hide GoodMarkers, WellFormedZone, FirstAt, OccursAt, Find, Absent, TrimEnd, TrimStartNewlines, SpliceBetween;
    Sizes(begin, end, zone);
    FindIs(existing, begin);
    FindIs(existing, end);
    var out := SpliceBetween(begin, end, existing, zone);
    var p := |zone| - 1 - |end|;
    if Find(existing, begin).Some? {
      var b, e := Find(existing, begin).value, Find(existing, end).value;
      SpliceRefreshes(begin, end, existing, zone, b, e);
      RefreshedMarkers(begin, end, existing, zone, b, e);
      FindFirst(out, begin, b);
      FindFirst(out, end, b + p);
    } else {
      AppendIdempotent(begin, end, existing, zone);
      AppendedMarkers(begin, end, existing, zone);
      FindFirst(out, begin, |TrimEnd(existing)| + 2);
      FindFirst(out, end, |TrimEnd(existing)| + 2 + p);
    }
  }

  /** A file with a zone keeps the text before it, and the text behind it from the first visible line on. */
  lemma {:induction false} ZoneRun(begin: string, end: string, existing: string, zones: seq<string>)
    requires ZonesFor(begin, end, zones) && HasZone(begin, end, existing)
    ensures var was := Handwritten(begin, end, existing);
            var now := Handwritten(begin, end, RefreshAll(begin, end, existing, zones));
            now.before == was.before
            && now.after == if zones == [] then was.after else "\n" + TrimStartNewlines(was.after)
    decreases |zones|
  {
    if zones != [] {
      hide GoodMarkers, WellFormedZone, ZonesFor, Find, Handwritten, SpliceBetween, TrimStartNewlines;
      ZonesShift(begin, end, zones);
      ZoneStays(begin, end, existing, zones[0]);
      SpliceKeepsHandwritten(begin, end, existing, zones[0]);
      ZoneRun(begin, end, SpliceBetween(begin, end, existing, zones[0]), zones[1..]);
      TrimNewlinesOnce(Handwritten(begin, end, existing).after);
    }
  }

  lemma {:induction false} EndsWithTail(s: string)
    ensures EndsWith(s, TrimStartNewlines(s)) && EndsWith("\n" + TrimStartNewlines(s), TrimStartNewlines(s))
  {
    var t := TrimStartNewlines(s);
    TrimmedIsTail(s);
    assert ("\n" + t)[1..] == t;
  }

  lemma {:induction false} TrimmedIsTail(s: string)
    ensures EndsWith(s, TrimStartNewlines(s))
  {
    if s != "" && s[0] == '\n' {
      TrimmedIsTail(s[1..]);
      var t := TrimStartNewlines(s);
      assert s[|s| - |t|..] == s[1..][|s| - 1 - |t|..];
    }
  }

  lemma {:induction false} SettledSurvives(begin: string, end: string, existing: string, zones: seq<string>)
    requires ZonesFor(begin, end, zones) && zones != [] && Settled(begin, end, existing)
    ensures Survives(Handwritten(begin, end, existing), Handwritten(begin, end, RefreshAll(begin, end, existing, zones)))
  {
    hide GoodMarkers, WellFormedZone, ZonesFor, Find, Handwritten, SpliceBetween, TrimStartNewlines, TrimEnd, RefreshAll;
    ZonesShift(begin, end, zones);
    if HasZone(begin, end, existing) {
      ZoneRun(begin, end, existing, zones);
      EndsWithTail(Handwritten(begin, end, existing).after);
      TrimIsPrefix(Handwritten(begin, end, existing).before);
    } else {
      FirstZoneSurvives(begin, end, existing, zones);
    }
  }

  lemma {:induction false} TrimIsPrefix(s: string)
    ensures TrimEnd(s) <= s
  {
  }

  lemma {:induction false} RefreshOnce(begin: string, end: string, existing: string, zones: seq<string>)
    requires zones != []
    ensures RefreshAll(begin, end, existing, zones)
         == RefreshAll(begin, end, SpliceBetween(begin, end, existing, zones[0]), zones[1..])
  {
  }

  lemma {:induction false} FirstZoneSurvives(begin: string, end: string, existing: string, zones: seq<string>)
    requires ZonesFor(begin, end, zones) && zones != [] && Settled(begin, end, existing) && !HasZone(begin, end, existing)
    ensures Survives(Handwritten(begin, end, existing), Handwritten(begin, end, RefreshAll(begin, end, existing, zones)))
  {
    hide GoodMarkers, WellFormedZone, ZonesFor, Find, SpliceBetween, RefreshAll;
    ZonesShift(begin, end, zones);
    RefreshOnce(begin, end, existing, zones);
    var out := SpliceBetween(begin, end, existing, zones[0]);
    ZoneStays(begin, end, existing, zones[0]);
    SpliceKeepsHandwritten(begin, end, existing, zones[0]);
    assert Handwritten(begin, end, existing) == Outside(existing, "");
    hide Handwritten;
    ZoneRun(begin, end, out, zones[1..]);
    assert Handwritten(begin, end, out) == Outside(TrimEnd(existing) + "\n\n", "\n");
    hide TrimEnd;
    assert TrimStartNewlines("") == "";
  }

  // ---------------------------------------------------------------- a stray end

  /** The first `end` stands at `e`, and no `begin` up to there. */
  ghost predicate StrayEnd(begin: string, end: string, text: string, e: nat) {
    FirstAt(text, end, e) && forall q: nat | q <= e :: !OccursAt(text, begin, q)
  }

  lemma {:induction false} StrayEndStays(begin: string, end: string, existing: string, zone: string, e: nat)
    requires GoodMarkers(begin, end) && WellFormedZone(begin, end, zone) && StrayEnd(begin, end, existing, e)
    ensures StrayEnd(begin, end, Appended(existing, zone), e)
    ensures TrimEnd(existing) <= TrimEnd(Appended(existing, zone))
  {
    var out := Appended(existing, zone);
    AppendKeepsOccurrences(existing, zone, end, e);
    forall q: nat | q <= e ensures !OccursAt(out, begin, q) && (q < e ==> !OccursAt(out, end, q)) {
      AppendKeepsOccurrences(existing, zone, begin, q);
      AppendKeepsOccurrences(existing, zone, end, q);
    }
    VisibleZone(begin, end, zone);
    TrimAppended(existing, zone, zone[..|zone| - 1]);
  }

  /** With a stray `end` every refresh appends: nothing is ever read as a zone and nothing is lost. */
  lemma {:induction false} StrayEndRun(begin: string, end: string, existing: string, zones: seq<string>, e: nat)
    requires ZonesFor(begin, end, zones) && StrayEnd(begin, end, existing, e)
    ensures var out := RefreshAll(begin, end, existing, zones);
            TrimEnd(existing) <= out && Handwritten(begin, end, out) == Outside(out, "")
    decreases |zones|
  {
    if zones == [] {
      StrayEndReads(begin, end, existing, e);
    } else {
      hide GoodMarkers, WellFormedZone, ZonesFor, StrayEnd, Handwritten, SpliceBetween, Appended, TrimEnd;
      ZonesShift(begin, end, zones);
      StrayEndAppends(begin, end, existing, zones[0], e);
      StrayEndStays(begin, end, existing, zones[0], e);
      StrayEndRun(begin, end, Appended(existing, zones[0]), zones[1..], e);
    }
  }

  lemma StrayEndAppends(begin: string, end: string, existing: string, zone: string, e: nat)
    requires GoodMarkers(begin, end) && WellFormedZone(begin, end, zone) && StrayEnd(begin, end, existing, e)
    ensures SpliceBetween(begin, end, existing, zone) == Appended(existing, zone)
  {
    hide GoodMarkers, WellFormedZone, FirstAt, OccursAt, SpliceBetween, Appended;
    Sizes(begin, end, zone);
    StrayEndGrows(begin, end, existing, zone, e);
  }

  lemma StrayEndReads(begin: string, end: string, text: string, e: nat)
    requires StrayEnd(begin, end, text, e)
    ensures Handwritten(begin, end, text) == Outside(text, "")
  {
    hide OccursAt, Find, TrimEnd;
    FindIs(text, begin);
    FindFirst(text, end, e);
  }

  // ---------------------------------------------------------------- a stray begin

  /** A file that ends in a zone of ours. */
  ghost predicate ZoneLast(begin: string, end: string, prefix: string, zone: string) {
    && FirstAt(prefix + zone, begin, |prefix|)
    && |zone| > |end| && FirstAt(prefix + zone, end, |prefix| + |zone| - 1 - |end|)
  }

  lemma ZoneLastRefreshed(begin: string, end: string, text: string, b: nat, e: nat, zone: string)
    requires GoodMarkers(begin, end) && WellFormedZone(begin, end, zone)
    requires FirstAt(text, begin, b) && FirstAt(text, end, e) && b < e && e + |end| <= |text| && text[e + |end|..] == "\n"
    ensures SpliceBetween(begin, end, text, zone) == text[..b] + zone && ZoneLast(begin, end, text[..b], zone)
  {
    hide GoodMarkers, WellFormedZone, FirstAt, OccursAt, TrimEnd, Find;
    Sizes(begin, end, zone);
    Fits(text, begin, b);
    SpliceRefreshes(begin, end, text, zone, b, e);
    RefreshedMarkers(begin, end, text, zone, b, e);
    assert "\n"[1..] == "";
    assert Refreshed(end, text, zone, b, e) == text[..b] + zone;
  }

  function LastZone(zone: string, zones: seq<string>): string {
    if zones == [] then zone else zones[|zones| - 1]
  }

  lemma LastZoneShift(zone: string, zones: seq<string>)
    requires zones != []
    ensures LastZone(zone, zones) == LastZone(zones[0], zones[1..])
  {
  }

  lemma {:induction false} ZoneLastRun(begin: string, end: string, prefix: string, zone: string, zones: seq<string>)
    requires ZonesFor(begin, end, zones) && GoodMarkers(begin, end) && WellFormedZone(begin, end, zone)
    requires ZoneLast(begin, end, prefix, zone)
    ensures RefreshAll(begin, end, prefix + zone, zones)
         == prefix + LastZone(zone, zones)
    decreases |zones|
  {
    if zones != [] {
      hide GoodMarkers, WellFormedZone, ZonesFor, ZoneLast, SpliceBetween, RefreshAll, LastZone;
      LastZoneShift(zone, zones);
      ZonesShift(begin, end, zones);
      NextZoneLast(begin, end, prefix, zone, zones[0]);
      RefreshOnce(begin, end, prefix + zone, zones);
      ZoneLastRun(begin, end, prefix, zones[0], zones[1..]);
    }
  }

  lemma NextZoneLast(begin: string, end: string, prefix: string, zone: string, next: string)
    requires GoodMarkers(begin, end) && WellFormedZone(begin, end, zone) && WellFormedZone(begin, end, next)
    requires ZoneLast(begin, end, prefix, zone)
    ensures SpliceBetween(begin, end, prefix + zone, next) == prefix + next && ZoneLast(begin, end, prefix, next)
  {
    hide GoodMarkers, WellFormedZone, FirstAt, OccursAt, SpliceBetween;
    Sizes(begin, end, zone);
    var text, e := prefix + zone, |prefix| + |zone| - 1 - |end|;
    assert text[e + |end|..] == "\n" && text[..|prefix|] == prefix;
    ZoneLastRefreshed(begin, end, text, |prefix|, e, next);
  }

  /** A `begin` without an `end`: from the second refresh on, all that is left is what stood before it, and the zone. */
  lemma {:induction false} LoneBeginLeaves(begin: string, end: string, existing: string, zones: seq<string>)
    requires ZonesFor(begin, end, zones) && |zones| >= 2
    requires Find(existing, begin).Some? && Find(existing, end).None?
    ensures var b := Find(existing, begin).value;
            RefreshAll(begin, end, existing, zones) == existing[..b] + zones[|zones| - 1]
            && b < |TrimEnd(existing)|
            && Handwritten(begin, end, RefreshAll(begin, end, existing, zones)).before == existing[..b]
  {
    hide GoodMarkers, WellFormedZone, ZonesFor, FirstAt, OccursAt, Absent, Find;
    hide SpliceBetween, TrimEnd, Appended, RefreshAll, Handwritten;
    var b := Find(existing, begin).value;
    FindIs(existing, begin);
    FindIs(existing, end);
    ZonesShift(begin, end, zones);
    ZonesShift(begin, end, zones[1..]);
    StrayBeginSwallows(begin, end, existing, zones[0], b);
    SecondRefresh(begin, end, existing, zones[0], zones[1], b);
    RefreshOnce(begin, end, existing, zones);
    RefreshOnce(begin, end, Appended(existing, zones[0]), zones[1..]);
    assert zones[1..][0] == zones[1] && zones[1..][1..] == zones[2..];
    ZonesShift(begin, end, zones[1..]);
    ZoneLastRun(begin, end, existing[..b], zones[1], zones[2..]);
    BeforeStrayBegin(begin, end, existing, zones, b);
  }

  lemma {:induction false} SecondRefresh(begin: string, end: string, existing: string, first: string, second: string, b: nat)
    requires GoodMarkers(begin, end) && WellFormedZone(begin, end, first) && WellFormedZone(begin, end, second)
    requires FirstAt(existing, begin, b) && Absent(existing, end)
    ensures b <= |existing| && b < |TrimEnd(existing)|
    ensures SpliceBetween(begin, end, Appended(existing, first), second) == existing[..b] + second
    ensures ZoneLast(begin, end, existing[..b], second)
  {
    hide GoodMarkers, WellFormedZone, FirstAt, OccursAt, SpliceBetween, Absent, TrimEnd;
    StrayBeginFirst(begin, end, existing, first, b);
    Sizes(begin, end, first);
    Fits(existing, begin, b);
    var out, e := Appended(existing, first), |TrimEnd(existing)| + 2 + |first| - 1 - |end|;
    assert out[e + |end|..] == first[|first| - 1..] == "\n";
    ZoneLastRefreshed(begin, end, out, b, e, second);
    AppendedPrefix(existing, first, b);
  }

  lemma {:induction false} BeforeStrayBegin(begin: string, end: string, existing: string, zones: seq<string>, b: nat)
    requires ZonesFor(begin, end, zones) && |zones| >= 2
    requires FirstAt(existing, begin, b) && Absent(existing, end)
    ensures b <= |existing| && Handwritten(begin, end, RefreshAll(begin, end, existing, zones)).before == existing[..b]
  {
    hide GoodMarkers, WellFormedZone, ZonesFor, OccursAt, SpliceBetween, Absent, TrimEnd, RefreshAll;
    ZonesShift(begin, end, zones);
    ZonesShift(begin, end, zones[1..]);
    var out := Appended(existing, zones[0]);
    StrayBeginSwallows(begin, end, existing, zones[0], b);
    StrayBeginFirst(begin, end, existing, zones[0], b);
    Fits(existing, begin, b);
    Sizes(begin, end, zones[0]);
    var e := |TrimEnd(existing)| + 2 + |zones[0]| - 1 - |end|;
    hide FirstAt;
    FindFirst(out, begin, b);
    FindFirst(out, end, e);
    OutsideIs(begin, end, out, b, e);
    AppendedPrefix(existing, zones[0], b);
    RefreshOnce(begin, end, existing, zones);
    ZoneRun(begin, end, out, zones[1..]);
  }

  // ---------------------------------------------------------------- exactly when text is lost

  /**
   Two or more refreshes lose handwritten text if and only if the file holds a BEGIN and no END: markers in any other
   arrangement cost nothing but blanks next to the zone.
   */
  lemma {:induction false} RefreshesLoseIff(begin: string, end: string, existing: string, zones: seq<string>)
    requires ZonesFor(begin, end, zones) && |zones| >= 2
    ensures !Survives(Handwritten(begin, end, existing), Handwritten(begin, end, RefreshAll(begin, end, existing, zones)))
            <==> Find(existing, begin).Some? && Find(existing, end).None?
  {
    hide GoodMarkers, WellFormedZone, ZonesFor, FirstAt, OccursAt, SpliceBetween, Find, Absent, TrimEnd, RefreshAll;
    FindIs(existing, begin);
    FindIs(existing, end);
    ZonesShift(begin, end, zones);
    if Settled(begin, end, existing) {
      hide Handwritten, Survives;
      SettledSurvives(begin, end, existing, zones);
    } else if Find(existing, end).Some? {
      var e := Find(existing, end).value;
      StrayEndFrom(begin, end, existing, zones[0]);
      StrayEndRun(begin, end, existing, zones, e);
      StrayEndReads(begin, end, existing, e);
      assert TrimStartNewlines("") == "";
    } else {
      LoneBeginLeaves(begin, end, existing, zones);
      assert Handwritten(begin, end, existing) == Outside(existing, "");
    }
  }

  lemma {:induction false} StrayEndFrom(begin: string, end: string, existing: string, zone: string)
    requires GoodMarkers(begin, end) && WellFormedZone(begin, end, zone)
    requires !Settled(begin, end, existing) && Find(existing, end).Some?
    ensures StrayEnd(begin, end, existing, Find(existing, end).value)
  {
    hide GoodMarkers, WellFormedZone, OccursAt, Find;
    FindIs(existing, begin);
    FindIs(existing, end);
    Sizes(begin, end, zone);
    NotBoth(begin, end, existing, zone, Find(existing, end).value);
  }
}
