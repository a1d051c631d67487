/** The hash printed into the generated zone, read back by the linter (src/agentsmd.rs). */
module AgentsMdFreshness {
  import opened Wrappers
  import opened Text
  import opened Strings
  import opened Hex
  import opened AgentsMd
  import Fnv

  // ---------------------------------------------------------------- printing

  /** What stands between the markers: the hash, the time stamp, the end of the comment, the body. */
  function Inner(hash: nat, ts: string, body: string): string {
    " hash=" + (HexPadded(hash, 16) + (" " + ("ts=\"" + ts + "\" -->\n" + body)))
  }

  function RenderZone(hash: nat, ts: string, body: string): string {
    BEGIN_MARKER + (Inner(hash, ts, body) + (END_MARKER + "\n"))
  }

  // ---------------------------------------------------------------- reading back

  /** The rest of the first word that starts with `hash=`. */
  function HashWord(words: seq<string>): Option<string> {
    if words == [] then None
    else if "hash=" <= words[0] then Some(words[0][5..])
    else HashWord(words[1..])
  }

  /** `from_str_radix(_, 16)` for 64 bits: an optional `+`, digits of either case, no overflow. */
  function ParseU64(s: string): Option<nat> {
    if s == "" then None
    else
      var v := HexValue(if s[0] == '+' && |s| > 1 then s[1..] else s);
      if v.Some? && v.value < 0x1_0000_0000_0000_0000 then v else None
  }

  function EmbeddedHash(text: string): Option<nat> {
    var begin := Find(text, BEGIN_MARKER);
    if begin.None? then None
    else
      var close := Find(text[begin.value..], COMMENT_CLOSE);
      if close.None? then None
      else
        var word := HashWord(SplitWhitespace(text[begin.value..][..close.value]));
        if word.None? then None else ParseU64(word.value)
  }

  datatype Freshness = NoZone | Fresh | Stale | NoHash

  function LintFreshness(text: string, current: nat): Freshness {
    if Find(text, BEGIN_MARKER).None? then NoZone
    else
      match EmbeddedHash(text)
      case None => NoHash
      case Some(h) => if h == current then Fresh else Stale
  }

  // ---------------------------------------------------------------- the round trip

  lemma MarkerFacts()
    ensures GoodMarkers(BEGIN_MARKER, END_MARKER)
    ensures |BEGIN_MARKER| == 19 && |END_MARKER| == 17
    ensures BEGIN_MARKER == "<!--" + (" " + "ARCH:GENERATED")
    ensures BEGIN_MARKER[0] == '<' && END_MARKER[0] == '<'
    ensures BEGIN_MARKER[10] == 'G' && END_MARKER[10] == 'E'
    ensures forall q | 0 < q < 19 :: BEGIN_MARKER[q] != '<' && BEGIN_MARKER[q] != '>'
  {
  }

  ghost predicate IsWord(w: string) {
    w != "" && forall c | c in w :: !IsWhitespace(c)
  }

  lemma {:induction false} HashWordSkips(word: string, rest: seq<string>)
    requires !("hash=" <= word)
    ensures HashWord([word] + rest) == HashWord(rest)
  {
    assert ([word] + rest)[1..] == rest;
  }

  /** The hash is found behind two other words. */
  lemma {:induction false} HashAfterTwoWords(a: string, b: string, word: string, tail: string)
    requires IsWord(a) && IsWord(b) && IsWord(word)
    requires !("hash=" <= a) && !("hash=" <= b) && "hash=" <= word
    ensures HashWord(SplitWhitespace(a + (" " + (b + (" " + (word + (" " + tail))))))) == Some(word[5..])
  {
    hide SplitWhitespace;
    var rest3 := " " + tail;
    var rest2 := " " + (word + rest3);
    var rest1 := " " + (b + rest2);
    FirstWord(word, rest3);
    FirstWord(b, rest2);
    FirstWord(a, rest1);
    HashWordSkips(a, SplitWhitespace(rest1));
    HashWordSkips(b, SplitWhitespace(rest2));
  }

  lemma WordFacts()
    ensures IsWord("<!--") && IsWord("ARCH:GENERATED")
    ensures !("hash=" <= "<!--") && !("hash=" <= "ARCH:GENERATED")
  {
    assert "<!--"[0] != "hash="[0] && "ARCH:GENERATED"[0] != "hash="[0];
  }

  lemma {:induction false} HashWordIs(hash: nat)
    ensures IsWord("hash=" + HexPadded(hash, 16))
    ensures ("hash=" + HexPadded(hash, 16))[5..] == HexPadded(hash, 16)
    ensures '>' !in "hash=" + HexPadded(hash, 16)
  {
    var hex := HexPadded(hash, 16);
    forall c | c in "hash=" + hex ensures !IsWhitespace(c) && c != '>' {
      assert c in "hash=" || c in hex;
    }
  }

  /** What precedes the time stamp in a header. */
  function HeaderHead(hash: nat): string {
    BEGIN_MARKER + (" " + (("hash=" + HexPadded(hash, 16)) + " "))
  }

  /** The comment does not close before the end of the head, whatever follows it. */
  lemma NoCloseInHead(hash: nat, tail: string, q: nat)
    requires q < |HeaderHead(hash)|
    ensures !OccursAt(HeaderHead(hash) + tail, COMMENT_CLOSE, q)
  {
    var head := HeaderHead(hash);
    var text := head + tail;
    HeadHasNoClose(hash);
    if q + 2 < |head| {
      assert text[q..q + 3][2] == head[q + 2];
      assert head[q + 2] in head;
    } else {
      assert head[|head| - 1] == ' ';
      NotAcross(text, COMMENT_CLOSE, q, |head| - 1);
    }
  }

  lemma HeadHasNoClose(hash: nat)
    ensures '>' !in HeaderHead(hash)
  {
    MarkerFacts();
    HashWordIs(hash);
    forall c | c in HeaderHead(hash) ensures c != '>' {
      assert c in BEGIN_MARKER || c == ' ' || c in "hash=" + HexPadded(hash, 16);
      if c in BEGIN_MARKER {
        var i :| 0 <= i < |BEGIN_MARKER| && BEGIN_MARKER[i] == c;
      }
    }
  }

  lemma {:induction false} ParsePrinted(hash: nat)
    requires hash < 0x1_0000_0000_0000_0000
    ensures ParseU64(HexPadded(hash, 16)) == Some(hash)
  {
    Pow16Values();
    HexRoundTrip(hash, 16);
    assert HexPadded(hash, 16)[0] in HexPadded(hash, 16);
  }

  /** The linter reads back exactly the hash of the first zone of a file, for any 64-bit hash and any time stamp. */
  lemma EmbeddedIsPrinted(before: string, hash: nat, ts: string, body: string, after: string)
    requires hash < 0x1_0000_0000_0000_0000
    requires FirstAt(before + (RenderZone(hash, ts, body) + after), BEGIN_MARKER, |before|)
    ensures EmbeddedHash(before + (RenderZone(hash, ts, body) + after)) == Some(hash)
  {
    hide FirstAt, OccursAt, Find, SplitWhitespace, HashWord, ParseU64, RenderZone;
    var text, zone := before + (RenderZone(hash, ts, body) + after), RenderZone(hash, ts, body);
    FindFirst(text, BEGIN_MARKER, |before|);
    var from := zone + after;
    assert text[|before|..] == from;
    var tail := ZoneTail(hash, ts, body, after);
    ClosePosition(hash, tail, ts, from);
    HeaderYieldsHash(hash, tail, Find(from, COMMENT_CLOSE).value);
    ParsePrinted(hash);
  }

  /** A rendered zone is its header's head and a tail that contains the end of the comment. */
  lemma ZoneTail(hash: nat, ts: string, body: string, after: string) returns (tail: string)
    ensures RenderZone(hash, ts, body) + after == HeaderHead(hash) + tail
    ensures OccursAt(tail, COMMENT_CLOSE, 6 + |ts|)
  {
    tail := "ts=\"" + ts + "\" -->\n" + body + (END_MARKER + "\n") + after;
    assert tail[6 + |ts|..9 + |ts|] == "-->";
    var hex := HexPadded(hash, 16);
    assert " hash=" == " " + "hash=";
    assert RenderZone(hash, ts, body) + after == HeaderHead(hash) + tail;
  }

  lemma {:induction false} ClosePosition(hash: nat, tail: string, ts: string, from: string)
    requires from == HeaderHead(hash) + tail && OccursAt(tail, COMMENT_CLOSE, 6 + |ts|)
    ensures Find(from, COMMENT_CLOSE).Some? && |HeaderHead(hash)| <= Find(from, COMMENT_CLOSE).value <= |from|
  {
    hide HeaderHead, OccursAt;
    forall q: nat | q < |HeaderHead(hash)| ensures !OccursAt(HeaderHead(hash) + tail, COMMENT_CLOSE, q) {
      NoCloseInHead(hash, tail, q);
    }
    FoundInTail(HeaderHead(hash), tail, COMMENT_CLOSE, 6 + |ts|);
  }

  lemma {:induction false} FoundInTail(head: string, tail: string, pat: string, k: nat)
    requires OccursAt(tail, pat, k)
    requires forall q: nat | q < |head| :: !OccursAt(head + tail, pat, q)
    ensures Find(head + tail, pat).Some? && |head| <= Find(head + tail, pat).value <= |head + tail|
  {
    var text, n := head + tail, |head|;
    FindIs(text, pat);
    assert text[n..n + |tail|] == tail[0..|tail|];
    OccursInBoth(text, n, tail, 0, |tail|, pat, k);
  }

  lemma {:induction false} HeaderWords(hash: nat, rest: string)
    ensures HeaderHead(hash) + rest
         == "<!--" + (" " + ("ARCH:GENERATED" + (" " + ("hash=" + HexPadded(hash, 16) + (" " + rest)))))
  {
    hide HexPadded;
    var word := "hash=" + HexPadded(hash, 16);
    assert HeaderHead(hash) + rest == BEGIN_MARKER + (" " + (word + (" " + rest)));
    MarkerFacts();
  }

  lemma {:induction false} HeaderYieldsHash(hash: nat, tail: string, close: nat)
    requires |HeaderHead(hash)| <= close <= |HeaderHead(hash) + tail|
    ensures HashWord(SplitWhitespace((HeaderHead(hash) + tail)[..close])) == Some(HexPadded(hash, 16))
  {
    hide HashWord, SplitWhitespace, IsWord;
    var n := |HeaderHead(hash)|;
    var word, rest := "hash=" + HexPadded(hash, 16), tail[..close - n];
    MarkerFacts();
    WordFacts();
    HashWordIs(hash);
    assert (HeaderHead(hash) + tail)[..close] == HeaderHead(hash) + rest;
    HeaderWords(hash, rest);
    hide HeaderHead;
    HashAfterTwoWords("<!--", "ARCH:GENERATED", word, rest);
  }

  // ---------------------------------------------------------------- well-formed zones

  /** A rendered zone is well formed when what it prints between the markers holds no END, and has one BEGIN likewise. */
  lemma RenderedIsWellFormed(hash: nat, ts: string, body: string)
    requires body != "" && body[|body| - 1] == '\n'
    ensures var zone := RenderZone(hash, ts, body);
            && FramedZone(BEGIN_MARKER, END_MARKER, zone)
            && (Absent(Inner(hash, ts, body), END_MARKER) ==> WellFormedZone(BEGIN_MARKER, END_MARKER, zone))
            && (Absent(Inner(hash, ts, body), BEGIN_MARKER) ==> OneBegin(BEGIN_MARKER, zone))
  {
    var inner := Inner(hash, ts, body);
    assert inner[|inner| - 1] == '\n';
    MarkerFacts();
    BracketedZone(BEGIN_MARKER, END_MARKER, inner);
  }

  /** The markers around a marker-free text that ends a line. */
  lemma BracketedZone(begin: string, end: string, inner: string)
    requires |begin| == 19 && |end| == 17 && begin[0] == '<' == end[0] && begin[10] != end[10]
    requires GoodMarkers(begin, end) && forall q | 0 < q < 19 :: begin[q] != '<'
    requires inner != "" && inner[|inner| - 1] == '\n'
    ensures var zone := begin + (inner + (end + "\n"));
            && FramedZone(begin, end, zone)
            && (Absent(inner, end) ==> WellFormedZone(begin, end, zone))
            && (Absent(inner, begin) ==> OneBegin(begin, zone))
  {
    var zone := begin + (inner + (end + "\n"));
    var z := zone[..|zone| - 1];
    assert z == begin + (inner + end);
    var close := |begin| + |inner|;
    assert z[0..|begin|] == begin && z[close..close + |end|] == end;
    assert z[0..|end|][10] == begin[10];
    if Absent(inner, end) {
      forall q: nat | 0 < q < |z| - |end| ensures !OccursAt(z, end, q) {
        NoMarkerInside(begin, inner, end, end, q);
      }
    }
    if Absent(inner, begin) {
      forall q: nat | 0 < q < |z| - |end| ensures !OccursAt(z, begin, q) {
        NoMarkerInside(begin, inner, end, begin, q);
      }
    }
  }

  lemma NoMarkerInside(begin: string, inner: string, end: string, pat: string, q: nat)
    requires |begin| == 19 && forall i | 0 < i < 19 :: begin[i] != '<'
    requires pat != "" && pat[0] == '<' && '\n' !in pat
    requires inner != "" && inner[|inner| - 1] == '\n' && Absent(inner, pat)
    requires 0 < q < 19 + |inner|
    ensures !OccursAt(begin + (inner + end), pat, q)
  {
    var z := begin + (inner + end);
    var last := 19 + |inner| - 1;
    assert z[last] == '\n';
    if q < 19 {
      if q + |pat| <= |z| {
        assert z[q..q + |pat|][0] == begin[q];
      }
    } else if q + |pat| <= last + 1 {
      assert z[19..19 + |inner|] == inner[0..|inner|];
      OccursInBoth(z, 19, inner, 0, |inner|, pat, q - 19);
    } else {
      NotAcross(z, pat, q, last);
    }
  }

  // ---------------------------------------------------------------- generate, then lint

  /** The contents the hash is taken of: spine and constraints when present, then the printed facts. */
  datatype Inputs = Inputs(spine: Option<seq<bv8>>, constraints: Option<seq<bv8>>, facts: seq<bv8>)

  function Bytes(file: Option<seq<bv8>>): seq<bv8> {
    if file.None? then [] else file.value
  }

  function InputsHash(inputs: Inputs): bv64 {
    Fnv.Fnv1a(Bytes(inputs.spine) + Bytes(inputs.constraints) + inputs.facts)
  }

  /** Generation: splice into an existing file, or start one under a header. */
  function Generate(existing: Option<string>, header: string, zone: string): string {
    if existing.None? then header + zone else Splice(existing.value, zone)
  }

  /** A file whose first `begin`, if any, opens a zone, or a header without one. */
  predicate Regular(existing: Option<string>, header: string) {
    match existing
    case None => Find(header, BEGIN_MARKER).None?
    case Some(text) => Find(text, BEGIN_MARKER).None? || Settled(BEGIN_MARKER, END_MARKER, text)
  }

  /**
   The hash the linter will read when a zone with hash `was` is put behind a text: the zone's own, unless a `begin` in
   the text has a comment that closes there, or one that stays open and has a word of its own that starts with `hash=`.
   */
  function ReadAhead(text: string, was: nat): Option<nat> {
    var begin := Find(text, BEGIN_MARKER);
    if begin.None? then Some(was)
    else if Find(text[begin.value..], COMMENT_CLOSE).Some? then EmbeddedHash(text)
    else
      var word := HashWord(SplitWhitespace(text[begin.value..]));
      if word.None? then Some(was) else ParseU64(word.value)
  }

  /** The hash the linter will read in a generated file, told from what was there before. */
  function ReadBack(existing: Option<string>, header: string, was: nat): Option<nat> {
    match existing
    case None => ReadAhead(header, was)
    case Some(text) => if Settled(BEGIN_MARKER, END_MARKER, text) then Some(was) else ReadAhead(text, was)
  }

  function Verdict(read: Option<nat>, current: nat): Freshness {
    match read
    case None => NoHash
    case Some(h) => if h == current then Fresh else Stale
  }

  /** Text that ends a line, as the header of a new file does. */
  predicate EndsLine(text: string) { text != "" && text[|text| - 1] == '\n' }

  lemma RenderedShape(hash: nat, ts: string, body: string)
    ensures var zone := RenderZone(hash, ts, body);
            && OccursAt(zone, BEGIN_MARKER, 0) && EndsLine(zone)
            && TrimEnd(zone) == zone[..|zone| - 1]
  {
    var zone := RenderZone(hash, ts, body);
    var z := BEGIN_MARKER + (Inner(hash, ts, body) + END_MARKER);
    assert zone == z + "\n" && zone[..|zone| - 1] == z;
    assert zone[0..|BEGIN_MARKER|] == BEGIN_MARKER;
    assert z[|z| - 1] == END_MARKER[|END_MARKER| - 1];
    MarkerPatterns();
    TrimEndIs(z, "\n");
  }

  lemma MarkerPatterns()
    ensures '\n' !in COMMENT_CLOSE && COMMENT_CLOSE != "" && !IsWhitespace(COMMENT_CLOSE[|COMMENT_CLOSE| - 1])
    ensures '\n' !in BEGIN_MARKER && BEGIN_MARKER != "" && !IsWhitespace(BEGIN_MARKER[|BEGIN_MARKER| - 1])
    ensures END_MARKER != "" && !IsWhitespace(END_MARKER[|END_MARKER| - 1])
  {
  }

  // ---------------------------------------------------------------- a zone put in the place of the old one

  lemma RefreshOpens(text: string, zone: string, after: string, begin: string, b: nat)
    requires FirstAt(text, begin, b) && OccursAt(zone, begin, 0)
    ensures b <= |text| && FirstAt(text[..b] + (zone + after), begin, b)
  {
    var out, n := text[..b] + (zone + after), b + |begin|;
    assert out[b..n] == zone[0..|begin|];
    assert out[..n] == text[..n] by {
      assert text[b..n] == begin;
    }
    assert out[0..n] == text[0..n];
    forall q: nat | q <= b ensures OccursAt(out, begin, q) <==> OccursAt(text, begin, q) {
      OccursInBoth(out, 0, text, 0, n, begin, q);
    }
  }

  lemma {:induction false} EmbeddedAfterRefresh(text: string, hash: nat, ts: string, body: string)
    requires hash < 0x1_0000_0000_0000_0000
    requires Settled(BEGIN_MARKER, END_MARKER, text) && Find(text, BEGIN_MARKER).Some?
    ensures var out := Splice(text, RenderZone(hash, ts, body));
            EmbeddedHash(out) == Some(hash) && Find(out, BEGIN_MARKER).Some?
  {
    hide FirstAt, OccursAt, Find, RenderZone, TrimEnd, TrimStartNewlines, EmbeddedHash;
    var zone := RenderZone(hash, ts, body);
    var b, e := Find(text, BEGIN_MARKER).value, Find(text, END_MARKER).value;
    var after := TrimStartNewlines(text[e + |END_MARKER|..]);
    RenderedShape(hash, ts, body);
    FindIs(text, BEGIN_MARKER);
    RefreshOpens(text, zone, after, BEGIN_MARKER, b);
    assert zone == zone[..|zone| - 1] + "\n";
    assert Splice(text, zone) == text[..b] + (zone + after);
    EmbeddedIsPrinted(text[..b], hash, ts, body, after);
    FindFirst(text[..b] + (zone + after), BEGIN_MARKER, b);
  }

  // ---------------------------------------------------------------- a zone put behind a text

  lemma {:induction false} HeaderThenZone(header: string, zone: string, begin: string)
    requires EndsLine(header) && Find(header, begin).None?
    requires '\n' !in begin && OccursAt(zone, begin, 0)
    ensures FirstAt(header + zone, begin, |header|)
  {
    var rest := Find(zone, begin);
    FindIs(zone, begin);
    FindBehind(header, zone, begin);
    FindIs(header + zone, begin);
  }

  /** What the linter reads when the zone stands behind a text that ends a line. */
  lemma EmbeddedBehind(prefix: string, hash: nat, ts: string, body: string)
    requires hash < 0x1_0000_0000_0000_0000 && EndsLine(prefix)
    ensures var out := prefix + RenderZone(hash, ts, body);
            EmbeddedHash(out) == ReadAhead(prefix, hash) && Find(out, BEGIN_MARKER).Some?
  {
    hide FirstAt, OccursAt, Find, RenderZone, SplitWhitespace, HashWord, ParseU64;
    var zone := RenderZone(hash, ts, body);
    RenderedShape(hash, ts, body);
    MarkerPatterns();
    var begin := Find(prefix, BEGIN_MARKER);
    if begin.None? {
      HeaderThenZone(prefix, zone, BEGIN_MARKER);
      assert zone + "" == zone;
      EmbeddedIsPrinted(prefix, hash, ts, body, "");
      FindFirst(prefix + zone, BEGIN_MARKER, |prefix|);
    } else {
      FindKept(prefix, zone, BEGIN_MARKER);
      var tail := prefix[begin.value..];
      assert (prefix + zone)[begin.value..] == tail + zone;
      if Find(tail, COMMENT_CLOSE).Some? {
        FindKept(tail, zone, COMMENT_CLOSE);
        var c := Find(tail, COMMENT_CLOSE).value;
        assert (tail + zone)[..c] == tail[..c];
      } else {
        OpenTail(prefix, begin.value);
        OpenCommentWord(tail, hash, ts, body);
      }
    }
  }

  lemma OpenTail(prefix: string, b: nat)
    requires EndsLine(prefix) && b + |BEGIN_MARKER| <= |prefix|
    ensures EndsLine(prefix[b..])
  {
  }

  /** A comment left open runs on into the zone's header: the first `hash=` word of the two together. */
  lemma {:induction false} OpenCommentWord(tail: string, hash: nat, ts: string, body: string)
    requires hash < 0x1_0000_0000_0000_0000 && EndsLine(tail) && Find(tail, COMMENT_CLOSE).None?
    ensures var text := tail + RenderZone(hash, ts, body);
            var close := Find(text, COMMENT_CLOSE);
            && close.Some? && close.value <= |text|
            && var word := HashWord(SplitWhitespace(text[..close.value]));
            var own := HashWord(SplitWhitespace(tail));
            word.Some? && ParseU64(word.value) == if own.None? then Some(hash) else ParseU64(own.value)
  {
    hide OccursAt, Find, SplitWhitespace, HashWord, ParseU64, RenderZone;
    var zone := RenderZone(hash, ts, body);
    var ztail := ZoneTail(hash, ts, body, "");
    assert zone + "" == zone;
    ClosePosition(hash, ztail, ts, zone);
    var k := Find(zone, COMMENT_CLOSE).value;
    MarkerPatterns();
    FindBehind(tail, zone, COMMENT_CLOSE);
    assert (tail + zone)[..|tail| + k] == tail + zone[..k];
    SplitAtBreak(tail, zone[..k]);
    HeaderYieldsHash(hash, ztail, k);
    HashWordConcat(SplitWhitespace(tail), SplitWhitespace(zone[..k]));
    ParsePrinted(hash);
  }

  lemma {:induction false} HashWordConcat(a: seq<string>, b: seq<string>)
    ensures HashWord(a + b) == if HashWord(a).Some? then HashWord(a) else HashWord(b)
  {
    if a == [] {
      assert a + b == b;
    } else {
      assert (a + b)[1..] == a[1..] + b;
      HashWordConcat(a[1..], b);
    }
  }

  // ---------------------------------------------------------------- a zone appended to a file

  /** Trimming the end of a file and adding a blank line moves no pattern. */
  lemma {:induction false} SameFind(text: string, pat: string, from: nat)
    requires pat != "" && '\n' !in pat && !IsWhitespace(pat[|pat| - 1])
    requires from <= |TrimEnd(text)|
    ensures Find(Appended(text, "")[from..], pat) == Find(text[from..], pat)
  {
    hide TrimEnd, Find, OccursAt, Appended;
    var out := Appended(text, "");
    SamePrefix(text, "", from, |TrimEnd(text)|);
    FindIs(text[from..], pat);
    forall q: nat ensures OccursAt(out[from..], pat, q) <==> OccursAt(text[from..], pat, q) {
      FoundBehind(text, from, pat, q);
      FoundBehind(out, from, pat, q);
      AppendKeepsOccurrences(text, "", pat, from + q);
      NothingAtTheEnd(text, pat, from + q);
    }
    if Find(text[from..], pat).Some? {
      FindFirst(out[from..], pat, Find(text[from..], pat).value);
    } else {
      FindAbsent(out[from..], pat);
    }
  }

  lemma {:induction false} NothingAtTheEnd(text: string, pat: string, q: nat)
    requires pat != ""
    ensures OccursAt(Appended(text, ""), pat, q) ==> q < |TrimEnd(text)| + 2
  {
  }

  lemma {:induction false} SamePrefix(existing: string, zone: string, from: nat, to: nat)
    requires from <= to <= |TrimEnd(existing)|
    ensures |TrimEnd(existing)| <= |Appended(existing, zone)| && |TrimEnd(existing)| <= |existing|
    ensures Appended(existing, zone)[from..to] == existing[from..to]
  {
  }

  lemma FoundBehind(text: string, from: nat, pat: string, q: nat)
    requires from <= |text|
    ensures OccursAt(text[from..], pat, q) <==> OccursAt(text, pat, from + q)
  {
    if from + q + |pat| <= |text| {
      assert text[from..][q..q + |pat|] == text[from + q..from + q + |pat|];
    }
  }

  /** A pattern that is found lies within the trimmed text. */
  lemma {:induction false} FoundWithin(text: string, pat: string, from: nat)
    requires pat != "" && '\n' !in pat && !IsWhitespace(pat[|pat| - 1])
    requires from <= |text| && Find(text[from..], pat).Some?
    ensures from + Find(text[from..], pat).value + |pat| <= |TrimEnd(text)|
  {
    hide TrimEnd, Find, OccursAt, Appended;
    var p := Find(text[from..], pat).value;
    FindIs(text[from..], pat);
    FoundBehind(text, from, pat, p);
    AppendKeepsOccurrences(text, "", pat, from + p);
  }

  /** The prediction reads the same before and after the trim. */
  lemma ReadAheadTrimmed(text: string, was: nat)
    ensures EndsLine(Appended(text, "")) && ReadAhead(Appended(text, ""), was) == ReadAhead(text, was)
  {
    var out := Appended(text, "");
    assert out[|out| - 1] == '\n';
    hide OccursAt, TrimEnd, Find, SplitWhitespace, HashWord, ParseU64, Appended, EmbeddedHash;
    SameBegin(text);
    if Find(text, BEGIN_MARKER).Some? {
      var b := Find(text, BEGIN_MARKER).value;
      MarkerPatterns();
      SameFind(text, COMMENT_CLOSE, b);
      if Find(text[b..], COMMENT_CLOSE).Some? {
        SameEmbedded(text);
      } else {
        SameWords(text, b);
      }
    }
  }

  lemma {:induction false} SameBegin(text: string)
    ensures Find(Appended(text, ""), BEGIN_MARKER) == Find(text, BEGIN_MARKER)
    ensures Find(text, BEGIN_MARKER).Some? ==> Find(text, BEGIN_MARKER).value <= |TrimEnd(text)|
  {
    hide Find, Appended, TrimEnd;
    MarkerPatterns();
    assert text[0..] == text && Appended(text, "")[0..] == Appended(text, "");
    SameFind(text, BEGIN_MARKER, 0);
    if Find(text, BEGIN_MARKER).Some? {
      FoundWithin(text, BEGIN_MARKER, 0);
    }
  }

  lemma {:induction false} SameEmbedded(text: string)
    requires Find(text, BEGIN_MARKER).Some?
    requires Find(text[Find(text, BEGIN_MARKER).value..], COMMENT_CLOSE).Some?
    ensures EmbeddedHash(Appended(text, "")) == EmbeddedHash(text)
  {
    hide OccursAt, TrimEnd, Find, SplitWhitespace, HashWord, ParseU64, Appended;
    var out, b := Appended(text, ""), Find(text, BEGIN_MARKER).value;
    SameBegin(text);
    MarkerPatterns();
    SameFind(text, COMMENT_CLOSE, b);
    FoundWithin(text, COMMENT_CLOSE, b);
    var c := Find(text[b..], COMMENT_CLOSE).value;
    SamePrefix(text, "", b, b + c);
    TakeOfDrop(text, b, c);
    TakeOfDrop(out, b, c);
  }

  lemma TakeOfDrop(text: string, b: nat, c: nat)
    requires b + c <= |text|
    ensures text[b..][..c] == text[b..b + c]
  {
  }

  lemma {:induction false} SameWords(text: string, b: nat)
    requires b <= |TrimEnd(text)|
    ensures |TrimEnd(text)| <= |Appended(text, "")|
    ensures SplitWhitespace(Appended(text, "")[b..]) == SplitWhitespace(text[b..])
  {
    hide SplitWhitespace;
    var t := TrimEnd(text);
    assert Appended(text, "")[b..] == t[b..] + "\n\n";
    assert text[b..] == t[b..] + text[|t|..];
    SplitTrailing(t[b..], "\n\n");
    SplitTrailing(t[b..], text[|t|..]);
  }

  // ---------------------------------------------------------------- the verdict

  /** What the linter reads in a generated file, whatever was there before. */
  lemma EmbeddedAfterGenerate(existing: Option<string>, header: string, hash: nat, ts: string, body: string)
    requires hash < 0x1_0000_0000_0000_0000 && EndsLine(header)
    ensures var out := Generate(existing, header, RenderZone(hash, ts, body));
            EmbeddedHash(out) == ReadBack(existing, header, hash) && Find(out, BEGIN_MARKER).Some?
  {
    hide Find, RenderZone, ReadAhead, EmbeddedHash, TrimEnd, TrimStartNewlines;
    var zone := RenderZone(hash, ts, body);
    match existing
    case None => EmbeddedBehind(header, hash, ts, body);
    case Some(text) =>
      if Settled(BEGIN_MARKER, END_MARKER, text) && Find(text, BEGIN_MARKER).Some? {
        EmbeddedAfterRefresh(text, hash, ts, body);
      } else {
        ReadAheadTrimmed(text, hash);
        EmbeddedBehind(Appended(text, ""), hash, ts, body);
        assert Splice(text, zone) == Appended(text, "") + zone;
        NoBeginAhead(text, hash);
      }
  }

  lemma {:induction false} NoBeginAhead(text: string, was: nat)
    ensures Find(text, BEGIN_MARKER).None? ==> ReadAhead(text, was) == Some(was)
  {
  }

  /** The verdict on a generated file, for any file before and any inputs then and now. */
  lemma LintAfterGenerate(existing: Option<string>, header: string, was: Inputs, now: Inputs, ts: string, body: string)
    requires EndsLine(header)
    ensures LintFreshness(Generate(existing, header, RenderZone(InputsHash(was) as nat, ts, body)), InputsHash(now) as nat)
         == Verdict(ReadBack(existing, header, InputsHash(was) as nat), InputsHash(now) as nat)
  {
    hide Find, RenderZone, Generate, EmbeddedHash, InputsHash, ReadBack;
    EmbeddedAfterGenerate(existing, header, InputsHash(was) as nat, ts, body);
  }

  /** The linter reads a stray comment instead of the new zone's: it says by itself whether it names the current hash. */
  predicate StrayNamesHash(text: string, current: nat) {
    var begin := Find(text, BEGIN_MARKER);
    begin.Some? &&
    var tail := text[begin.value..];
    if Find(tail, COMMENT_CLOSE).Some? then EmbeddedHash(text) == Some(current)
    else
      var word := HashWord(SplitWhitespace(tail));
      word.None? || ParseU64(word.value) == Some(current)
  }

  /**
   Linting right after generating on unchanged inputs: fresh if and only if the file was regular, or its stray comment
   closes and already named the current hash, or stays open and names no hash or the current one.
   */
  lemma FreshAfterGenerate(existing: Option<string>, header: string, inputs: Inputs, ts: string, body: string)
    requires EndsLine(header)
    ensures var current := InputsHash(inputs) as nat;
            LintFreshness(Generate(existing, header, RenderZone(current, ts, body)), current) == Fresh <==>
            Regular(existing, header) || StrayNamesHash(if existing.Some? then existing.value else header, current)
  {
    hide RenderZone, Generate, LintFreshness, InputsHash, Find, EmbeddedHash, SplitWhitespace, HashWord, ParseU64;
    LintAfterGenerate(existing, header, inputs, inputs, ts, body);
  }

  /** On a regular file the verdict follows the inputs alone. */
  lemma RegularFollowsInputs(existing: Option<string>, header: string, was: Inputs, now: Inputs, ts: string, body: string)
    requires EndsLine(header) && Regular(existing, header)
    ensures LintFreshness(Generate(existing, header, RenderZone(InputsHash(was) as nat, ts, body)), InputsHash(now) as nat)
         == if InputsHash(was) == InputsHash(now) then Fresh else Stale
  {
    hide RenderZone, Generate, LintFreshness, InputsHash, Regular, ReadBack, Verdict;
    LintAfterGenerate(existing, header, was, now, ts, body);
    RegularVerdict(existing, header, InputsHash(was) as nat, InputsHash(now) as nat);
    SameNumber(InputsHash(was), InputsHash(now));
  }

  lemma RegularVerdict(existing: Option<string>, header: string, was: nat, now: nat)
    requires Regular(existing, header)
    ensures Verdict(ReadBack(existing, header, was), now) == if was == now then Fresh else Stale
  {
    hide Find, EmbeddedHash, SplitWhitespace, HashWord, ParseU64;
  }

  lemma SameNumber(x: bv64, y: bv64)
    ensures x == y <==> x as nat == y as nat
  {
    if x as nat == y as nat {
      Fnv.HashByNumber(x, y);
    }
  }

  /**
   A stray comment that names a hash, closed or open, hides the zone of the next generation: the verdict right after it
   is the same for any hash printed there, and for a closed one the same as before.
   */
  lemma {:induction false} StrayBeginHidesZone(existing: string, header: string, hash: nat, other: nat, ts: string,
                                               body: string, current: nat)
    requires hash < 0x1_0000_0000_0000_0000 && other < 0x1_0000_0000_0000_0000 && EndsLine(header)
    requires !Regular(Some(existing), header)
    requires var tail := existing[Find(existing, BEGIN_MARKER).value..];
             Find(tail, COMMENT_CLOSE).Some? || HashWord(SplitWhitespace(tail)).Some?
    ensures LintFreshness(Generate(Some(existing), header, RenderZone(hash, ts, body)), current)
         == LintFreshness(Generate(Some(existing), header, RenderZone(other, ts, body)), current)
    ensures Find(existing[Find(existing, BEGIN_MARKER).value..], COMMENT_CLOSE).Some? ==>
              LintFreshness(Generate(Some(existing), header, RenderZone(hash, ts, body)), current)
              == LintFreshness(existing, current)
  {
    hide RenderZone, Generate, Find, EmbeddedHash, SplitWhitespace, HashWord, ParseU64;
    EmbeddedAfterGenerate(Some(existing), header, hash, ts, body);
    EmbeddedAfterGenerate(Some(existing), header, other, ts, body);
  }

  /** A file cut off inside the header of its zone is still stale right after the next generation on changed inputs. */
  lemma CutHeaderIsStale(past: nat, rest: string, header: string, inputs: Inputs, ts: string, body: string)
    requires past < 0x1_0000_0000_0000_0000 && '>' !in rest && EndsLine(header)
    requires InputsHash(inputs) as nat != past
    ensures LintFreshness(Generate(Some(HeaderHead(past) + rest), header, RenderZone(InputsHash(inputs) as nat, ts, body)),
                          InputsHash(inputs) as nat) == Stale
  {
    hide RenderZone, Generate, InputsHash, LintFreshness, HeaderHead, ReadAhead;
    CutHeaderRead(past, rest, InputsHash(inputs) as nat);
    LintAfterGenerate(Some(HeaderHead(past) + rest), header, inputs, inputs, ts, body);
  }

  lemma CutHeaderRead(past: nat, rest: string, was: nat)
    requires past < 0x1_0000_0000_0000_0000 && '>' !in rest
    ensures !Settled(BEGIN_MARKER, END_MARKER, HeaderHead(past) + rest)
    ensures ReadAhead(HeaderHead(past) + rest, was) == Some(past)
  {
    var text := HeaderHead(past) + rest;
    HeadOpens(past, rest);
    HeadHasNoClose(past);
    hide HeaderHead, OccursAt, Find, SplitWhitespace, HashWord, ParseU64;
    assert '>' !in text && text[0..] == text && text[..|text|] == text;
    FindFirst(text, BEGIN_MARKER, 0);
    assert '>' in COMMENT_CLOSE && '>' in END_MARKER by {
      assert COMMENT_CLOSE[2] == '>' && END_MARKER[16] == '>';
    }
    NoneWithout(text, COMMENT_CLOSE, '>');
    NoneWithout(text, END_MARKER, '>');
    HeaderYieldsHash(past, rest, |text|);
    ParsePrinted(past);
  }

  lemma HeadOpens(past: nat, rest: string)
    ensures FirstAt(HeaderHead(past) + rest, BEGIN_MARKER, 0)
  {
    assert (HeaderHead(past) + rest)[0..|BEGIN_MARKER|] == BEGIN_MARKER;
  }

  /** A text without a character of the pattern does not hold the pattern. */
  lemma {:induction false} NoneWithout(text: string, pat: string, c: char)
    requires c in pat && c !in text
    ensures Find(text, pat).None?
  {
    var i :| 0 <= i < |pat| && pat[i] == c;
    forall q: nat ensures !OccursAt(text, pat, q) {
      if q + |pat| <= |text| {
        assert text[q + i] in text && text[q..q + |pat|][i] == text[q + i];
      }
    }
    FindAbsent(text, pat);
  }

  /** The same file with one byte substituted. */
  ghost predicate OneByteApart(x: seq<bv8>, y: seq<bv8>) {
    exists i: nat :: i < |x| && |x| == |y| && x[i] != y[i] && y == x[i := y[i]]
  }

  /** After one byte of the spine or of the constraints has been substituted, the linter reports the zone stale. */
  lemma SubstitutionIsStale(existing: Option<string>, header: string, was: Inputs, now: Inputs, ts: string, body: string)
    requires EndsLine(header) && Regular(existing, header)
    requires OneByteApart(Bytes(was.spine) + Bytes(was.constraints) + was.facts,
                          Bytes(now.spine) + Bytes(now.constraints) + now.facts)
    ensures LintFreshness(Generate(existing, header, RenderZone(InputsHash(was) as nat, ts, body)),
                          InputsHash(now) as nat) == Stale
  {
    hide RenderZone, Generate, LintFreshness, Regular, Fnv.Fnv1a;
    var x := Bytes(was.spine) + Bytes(was.constraints) + was.facts;
    var y := Bytes(now.spine) + Bytes(now.constraints) + now.facts;
    var i: nat :| i < |x| && |x| == |y| && x[i] != y[i] && y == x[i := y[i]];
    assert x == x[..i] + [x[i]] + x[i + 1..] && y == x[..i] + [y[i]] + x[i + 1..];
    Fnv.SubstitutionChangesHash(x[..i], x[i], y[i], x[i + 1..]);
    RegularFollowsInputs(existing, header, was, now, ts, body);
  }

  /** Substituting one byte of the spine, or of the constraints, is one such change. */
  lemma FileSubstitution(inputs: Inputs, i: nat, b: bv8)
    ensures inputs.spine.Some? && i < |inputs.spine.value| && inputs.spine.value[i] != b ==>
              var now := inputs.(spine := Some(inputs.spine.value[i := b]));
              OneByteApart(Bytes(inputs.spine) + Bytes(inputs.constraints) + inputs.facts,
                           Bytes(now.spine) + Bytes(now.constraints) + now.facts)
    ensures inputs.constraints.Some? && i < |inputs.constraints.value| && inputs.constraints.value[i] != b ==>
              var now := inputs.(constraints := Some(inputs.constraints.value[i := b]));
              OneByteApart(Bytes(inputs.spine) + Bytes(inputs.constraints) + inputs.facts,
                           Bytes(now.spine) + Bytes(now.constraints) + now.facts)
  {
    var x := Bytes(inputs.spine) + Bytes(inputs.constraints) + inputs.facts;
    if inputs.spine.Some? && i < |inputs.spine.value| && inputs.spine.value[i] != b {
      assert inputs.spine.value[i := b] + Bytes(inputs.constraints) + inputs.facts == x[i := b];
      assert x[i] != b && x[i := b][i] == b;
    }
    if inputs.constraints.Some? && i < |inputs.constraints.value| && inputs.constraints.value[i] != b {
      var j := |Bytes(inputs.spine)| + i;
      assert Bytes(inputs.spine) + inputs.constraints.value[i := b] + inputs.facts == x[j := b];
      assert x[j] != b && x[j := b][j] == b;
    }
  }

  /** A blind spot: no separator is hashed, so text moved from the spine's end to the constraints' start is not seen. */
  lemma MovedTextIsFresh(a: seq<bv8>, moved: seq<bv8>, c: seq<bv8>, facts: seq<bv8>)
    ensures InputsHash(Inputs(Some(a + moved), Some(c), facts)) == InputsHash(Inputs(Some(a), Some(moved + c), facts))
  {
    assert (a + moved) + c + facts == a + (moved + c) + facts;
  }
}
