/** JSON Pointers into AsyncAPI documents (src/asyncapi.rs) against RFC 6901. */
module JsonPointer {
  import opened Paths

  /** `replace` of one character by a text: matches of a single character never overlap. */
  function ReplaceChar(s: string, c: char, sub: string): string {
    if s == "" then "" else (if s[0] == c then sub else [s[0]]) + ReplaceChar(s[1..], c, sub)
  }

  function EscapeSegment(segment: string): string {
    ReplaceChar(ReplaceChar(segment, '~', "~0"), '/', "~1")
  }

  function EscapeAll(segments: seq<string>): seq<string> {
    seq(|segments|, i requires 0 <= i < |segments| => EscapeSegment(segments[i]))
  }

  /** The printed pointer, anchored with `#`. */
  function Location(segments: seq<string>): string {
    "#/" + Join(EscapeAll(segments), '/')
  }

  // ---------------------------------------------------------------- section 4 of RFC 6901

  /** Replacing the two-character sequence `~` and `d` from left to right. */
  function ReplaceTilde(s: string, d: char, sub: char): string {
    if |s| < 2 then s
    else if s[0] == '~' && s[1] == d then [sub] + ReplaceTilde(s[2..], d, sub)
    else [s[0]] + ReplaceTilde(s[1..], d, sub)
  }

  /** A reference token is decoded by turning `~1` into `/` first and `~0` into `~` afterwards. */
  function DecodeToken(token: string): string {
    ReplaceTilde(ReplaceTilde(token, '1', '/'), '0', '~')
  }

  function DecodeAll(tokens: seq<string>): seq<string> {
    seq(|tokens|, i requires 0 <= i < |tokens| => DecodeToken(tokens[i]))
  }

  /** The reference tokens of a pointer behind its anchor. */
  function Resolve(location: string): seq<string>
    requires |location| >= 2
  {
    DecodeAll(Split(location[2..], '/'))
  }

  // ---------------------------------------------------------------- the escape

  function EscapeChar(c: char): string {
    if c == '~' then "~0" else if c == '/' then "~1" else [c]
  }

  /** One pass, character by character. */
  function EscapeByChar(s: string): string {
    if s == "" then "" else EscapeChar(s[0]) + EscapeByChar(s[1..])
  }

  lemma {:induction false} ReplaceConcat(a: string, b: string, c: char, sub: string)
    ensures ReplaceChar(a + b, c, sub) == ReplaceChar(a, c, sub) + ReplaceChar(b, c, sub)
  {
    if a == "" {
      assert a + b == b;
    } else {
      assert (a + b)[1..] == a[1..] + b;
      ReplaceConcat(a[1..], b, c, sub);
    }
  }

  /** The two replacements in a row do not disturb each other. */
  lemma {:induction false} EscapeIsPerCharacter(s: string)
    ensures EscapeSegment(s) == EscapeByChar(s)
  {
    if s != "" {
      EscapeIsPerCharacter(s[1..]);
      var head, tail := if s[0] == '~' then "~0" else [s[0]], ReplaceChar(s[1..], '~', "~0");
      ReplaceConcat(head, tail, '/', "~1");
      assert head[1..] == if s[0] == '~' then "0" else "";
      assert ReplaceChar(head, '/', "~1") == EscapeChar(s[0]);
    }
  }

  /** An escaped segment holds no separator. */
  lemma {:induction false} NoSlash(s: string)
    ensures '/' !in EscapeByChar(s)
  {
    if s != "" {
      NoSlash(s[1..]);
    }
  }

  /** What the first decoding step leaves of an escaped segment: only the tildes are still escaped. */
  function TildesEscaped(s: string): string {
    if s == "" then "" else (if s[0] == '~' then "~0" else [s[0]]) + TildesEscaped(s[1..])
  }

  lemma {:induction false} FirstStep(s: string)
    ensures ReplaceTilde(EscapeByChar(s), '1', '/') == TildesEscaped(s)
  {
    if s != "" {
      var tail := EscapeByChar(s[1..]);
      FirstStep(s[1..]);
      hide ReplaceTilde;
      if s[0] == '~' {
        TildeZeroStays(tail);
      } else if s[0] == '/' {
        TildeOneDecodes(tail);
      } else {
        StepOver(s[0], tail, '1', '/');
      }
    }
  }

  lemma {:induction false} TildeZeroStays(tail: string)
    ensures ReplaceTilde("~0" + tail, '1', '/') == "~0" + ReplaceTilde(tail, '1', '/')
  {
    assert ("~0" + tail)[1..] == ['0'] + tail;
    StepOver('0', tail, '1', '/');
  }

  lemma {:induction false} TildeOneDecodes(tail: string)
    ensures ReplaceTilde("~1" + tail, '1', '/') == "/" + ReplaceTilde(tail, '1', '/')
  {
    assert ("~1" + tail)[2..] == tail;
  }

  /** A character that is no tilde is passed over. */
  lemma {:induction false} StepOver(c: char, tail: string, d: char, sub: char)
    requires c != '~'
    ensures ReplaceTilde([c] + tail, d, sub) == [c] + ReplaceTilde(tail, d, sub)
  {
    assert ([c] + tail)[1..] == tail;
    assert |tail| < 1 ==> tail == "";
  }

  lemma {:induction false} SecondStep(s: string)
    ensures ReplaceTilde(TildesEscaped(s), '0', '~') == s
  {
    if s != "" {
      var tail := TildesEscaped(s[1..]);
      SecondStep(s[1..]);
      if s[0] == '~' {
        assert TildesEscaped(s)[2..] == tail;
      } else {
        StepOver(s[0], tail, '0', '~');
      }
      assert [s[0]] + s[1..] == s;
    }
  }

  /** Decoding an escaped segment gives it back. */
  lemma DecodeEscape(s: string)
    ensures DecodeToken(EscapeSegment(s)) == s
  {
    EscapeIsPerCharacter(s);
    FirstStep(s);
    SecondStep(s);
  }

  // ---------------------------------------------------------------- the pointer

  /** A printed pointer resolves to its segments, for every non-empty list. */
  lemma RoundTrip(segments: seq<string>)
    requires segments != []
    ensures Resolve(Location(segments)) == segments
  {
    var escaped := EscapeAll(segments);
    forall i | 0 <= i < |segments| ensures '/' !in escaped[i] {
      EscapeIsPerCharacter(segments[i]);
      NoSlash(segments[i]);
    }
    SplitJoin(escaped, '/');
    assert Location(segments)[2..] == Join(escaped, '/');
    forall i | 0 <= i < |segments| ensures DecodeAll(escaped)[i] == segments[i] {
      DecodeEscape(segments[i]);
    }
  }

  /** Two lists print alike only when they are equal, or when one is empty and the other holds one empty segment. */
  lemma LocationInjectiveIff(a: seq<string>, b: seq<string>)
    ensures Location(a) == Location(b) <==> a == b || {a, b} == {[], [""]}
  {
    EmptyCollides();
    if a != [] {
      RoundTrip(a);
    }
    if b != [] {
      RoundTrip(b);
    }
    RoundTrip([""]);
    assert a == [] && b == [""] ==> {a, b} == {[], [""]};
    assert b == [] && a == [""] ==> {a, b} == {[], [""]};
    if {a, b} == {[], [""]} {
      assert [] in {a, b} && [""] in {a, b};
    }
  }

  lemma EmptyCollides()
    ensures Location([]) == Location([""]) == "#/"
  {
    assert EscapeAll([""]) == [""];
  }

  /** Decoding in the other order breaks a segment that holds `~1`. */
  lemma WrongOrderLosesText()
    ensures ReplaceTilde(ReplaceTilde(EscapeSegment("~1"), '0', '~'), '1', '/') == "/"
    ensures DecodeToken(EscapeSegment("~1")) == "~1"
  {
    EscapeIsPerCharacter("~1");
    assert "~1"[1..] == "1" && "1"[1..] == "";
    assert EscapeByChar("1") == "1" && EscapeByChar("~1") == "~01";
    assert "~01"[2..] == "1" && ReplaceTilde("~01", '0', '~') == "~1";
    assert ReplaceTilde("~1", '1', '/') == "/" + ReplaceTilde("~1"[2..], '1', '/');
    DecodeEscape("~1");
  }
}
