/** What a generation writes, character by character, and which verdict is which (src/agentsmd.rs). */
module AgentsMdContent {
  import opened Wrappers
  import opened Text
  import opened Strings
  import opened Hex
  import opened AgentsMd
  import opened AgentsMdFreshness
  import Fnv

  // ---------------------------------------------------------------- the text around a zone

  /** `t` is `s` without the blanks at its end. */
  ghost predicate Trimmed(s: string, t: string) {
    t <= s && IsBlank(s[|t|..]) && (t != "" ==> !IsWhitespace(t[|t| - 1]))
  }

  /** `t` is `s` without the line breaks at its start. */
  ghost predicate Unbroken(s: string, t: string) {
    && |t| <= |s| && s[|s| - |t|..] == t
    && (forall i | 0 <= i < |s| - |t| :: s[i] == '\n') && (t != "" ==> t[0] != '\n')
  }

  /** A zone stands between the first BEGIN at `b` and the first END at `e`. */
  ghost predicate ZoneAt(text: string, b: nat, e: nat) {
    FirstAt(text, BEGIN_MARKER, b) && FirstAt(text, END_MARKER, e) && b < e
  }

  /** A file that is there with a zone keeps what stands around it. */
  ghost predicate Replaces(text: string, b: nat, e: nat, before: string, after: string) {
    ZoneAt(text, b, e) && before == text[..b] && Unbroken(text[e + |END_MARKER|..], after)
  }

  /** A file without one gets it at its end, behind an empty line. */
  ghost predicate Appends(text: string, t: string, before: string, after: string) {
    (forall b, e: nat :: !ZoneAt(text, b, e)) && Trimmed(text, t) && before == t + "\n\n" && after == ""
  }

  /** What a generation puts before and behind the zone. */
  ghost predicate Around(existing: Option<string>, header: string, before: string, after: string) {
    match existing
    case None => before == header && after == ""
    case Some(text) =>
      (exists b, e: nat :: Replaces(text, b, e, before, after)) || exists t :: Appends(text, t, before, after)
  }

  lemma {:induction false} UnbrokenIs(s: string)
    ensures Unbroken(s, TrimStartNewlines(s))
  {
    if s != "" && s[0] == '\n' {
      UnbrokenIs(s[1..]);
      OneMoreBreak(s, TrimStartNewlines(s[1..]));
    } else {
      assert s[0..] == s;
    }
  }

  lemma OneMoreBreak(s: string, t: string)
    requires s != "" && s[0] == '\n' && Unbroken(s[1..], t)
    ensures Unbroken(s, t)
  {
    var rest := s[1..];
    assert s[|s| - |t|..] == rest[|rest| - |t|..];
    forall i | 0 <= i < |s| - |t| ensures s[i] == '\n' {
      assert i > 0 ==> rest[i - 1] == s[i];
    }
  }

  lemma {:induction false} TrimmedIs(s: string)
    ensures Trimmed(s, TrimEnd(s))
  {
  }

  lemma SpliceAround(text: string, zone: string) returns (before: string, after: string)
    requires zone != "" && zone[|zone| - 1] == '\n' && TrimEnd(zone) == zone[..|zone| - 1]
    ensures Around(Some(text), "", before, after)
    ensures Splice(text, zone) == before + (zone + after)
  {
    hide Find, FirstAt, TrimEnd, TrimStartNewlines, Unbroken, Trimmed;
    var b, e := Find(text, BEGIN_MARKER), Find(text, END_MARKER);
    FindIs(text, BEGIN_MARKER);
    FindIs(text, END_MARKER);
    if b.Some? && e.Some? && b.value < e.value {
      var rest := text[e.value + |END_MARKER|..];
      before, after := text[..b.value], TrimStartNewlines(rest);
      UnbrokenIs(rest);
      assert Replaces(text, b.value, e.value, before, after);
      assert zone == zone[..|zone| - 1] + "\n";
      assert zone[..|zone| - 1] + ("\n" + after) == zone + after;
    } else {
      before, after := TrimEnd(text) + "\n\n", "";
      TrimmedIs(text);
      NoZoneAt(text);
      assert Appends(text, TrimEnd(text), before, after);
      assert zone + "" == zone && TrimEnd(text) + ("\n\n" + zone) == before + zone;
    }
  }

  lemma {:induction false} NoZoneAt(text: string)
    requires var b, e := Find(text, BEGIN_MARKER), Find(text, END_MARKER); !(b.Some? && e.Some? && b.value < e.value)
    ensures forall b, e: nat :: !ZoneAt(text, b, e)
  {
    hide Find, FirstAt;
    forall b, e: nat ensures !ZoneAt(text, b, e) {
      if ZoneAt(text, b, e) {
        FindFirst(text, BEGIN_MARKER, b);
        FindFirst(text, END_MARKER, e);
      }
    }
  }

  /** A zone is its header line with hash and time stamp, the body, and the END. */
  lemma {:induction false} ZoneReads(hash: nat, ts: string, body: string)
    ensures RenderZone(hash, ts, body) ==
            "<!-- ARCH:GENERATED hash=" + HexPadded(hash, 16) + " ts=\"" + ts + "\" -->\n" + body + "<!-- ARCH:END -->\n"
  {
    hide HexPadded;
    HeaderReads();
    Regroup(BEGIN_MARKER, " hash=", HexPadded(hash, 16), " ", "ts=\"" + ts + "\" -->\n", body, END_MARKER + "\n");
    RegroupStamp(" ", "ts=\"", ts, "\" -->\n");
  }

  lemma HeaderReads()
    ensures BEGIN_MARKER + " hash=" == "<!-- ARCH:GENERATED hash=" && END_MARKER + "\n" == "<!-- ARCH:END -->\n"
    ensures " " + "ts=\"" == " ts=\""
  {
  }

  lemma Regroup(a: string, b: string, c: string, d: string, e: string, f: string, g: string)
    ensures a + ((b + (c + (d + (e + f)))) + g) == (a + b) + c + (d + e) + f + g
  {
  }

  lemma RegroupStamp(a: string, b: string, c: string, d: string)
    ensures a + (b + c + d) == (a + b) + c + d
  {
  }

  /**
   Every generation writes its zone, header line, body and END, and around it what was there:
   the text before the old zone and behind it without its leading line breaks, or the whole old text without its trailing
   blanks, or the header of a new file.
   */
  lemma GeneratedIs(existing: Option<string>, header: string, hash: nat, ts: string, body: string)
    returns (before: string, after: string)
    ensures Around(existing, header, before, after)
    ensures Generate(existing, header, RenderZone(hash, ts, body)) ==
            before + (("<!-- ARCH:GENERATED hash=" + HexPadded(hash, 16) + " ts=\"" + ts + "\" -->\n"
                       + body + "<!-- ARCH:END -->\n") + after)
  {
    hide HexPadded, RenderZone, Splice, TrimEnd, Replaces, Appends;
    ZoneReads(hash, ts, body);
    var zone := RenderZone(hash, ts, body);
    if existing.None? {
      before, after := header, "";
      assert zone + "" == zone;
    } else {
      RenderedShape(hash, ts, body);
      before, after := SpliceAround(existing.value, zone);
    }
  }

  // ---------------------------------------------------------------- the verdicts

  /** Which verdict is which: no zone without a BEGIN, else by the hash that can be read, if any. */
  lemma LintIs(text: string, current: nat)
    ensures var v := LintFreshness(text, current);
            && (v.NoZone? <==> Absent(text, BEGIN_MARKER))
            && (v.NoHash? <==> !Absent(text, BEGIN_MARKER) && EmbeddedHash(text).None?)
            && (v.Fresh? <==> EmbeddedHash(text) == Some(current))
            && (v.Stale? <==> EmbeddedHash(text).Some? && EmbeddedHash(text) != Some(current))
  {
    hide Find, OccursAt;
    FindIs(text, BEGIN_MARKER);
    if Find(text, BEGIN_MARKER).Some? {
      assert OccursAt(text, BEGIN_MARKER, Find(text, BEGIN_MARKER).value);
    }
  }

  /** A number fits 64 bits. */
  predicate Fits(v: Option<nat>) { v.Some? && v.value <= 0xffff_ffff_ffff_ffff }

  /** Read as a hash is a non-empty text of hexadecimal digits, with or without a plus before it, up to 64 bits. */
  lemma {:induction false} ParseIs(s: string)
    ensures ParseU64("") == None && ParseU64("+") == None
    ensures s != "" && s[0] != '+' ==> ParseU64(s) == if Fits(HexValue(s)) then HexValue(s) else None
    ensures s != "" ==> ParseU64("+" + s) == if Fits(HexValue(s)) then HexValue(s) else None
  {
    assert ("+" + s)[1..] == s;
    assert "+"[..0] == "" && DigitValue('+') == None;
    assert HexValue("+") == None;
  }

  // ---------------------------------------------------------------- the hash of the inputs

  /** The hash runs over the spine, then the constraints, then the facts. */
  lemma {:induction false} HashRunsOver(inputs: Inputs)
    ensures var afterSpine := Fnv.HashFrom(0xcbf2_9ce4_8422_2325, Bytes(inputs.spine));
            var afterConstraints := Fnv.HashFrom(afterSpine, Bytes(inputs.constraints));
            InputsHash(inputs) == Fnv.HashFrom(afterConstraints, inputs.facts)
  {
    hide Fnv.HashFrom;
    Fnv.HashConcat(Fnv.OFFSET_BASIS, Bytes(inputs.spine) + Bytes(inputs.constraints), inputs.facts);
    Fnv.HashConcat(Fnv.OFFSET_BASIS, Bytes(inputs.spine), Bytes(inputs.constraints));
  }
}
