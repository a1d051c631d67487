/** The text that redaction works on: JSON strings that decode, calls in order, and what a word is made of. */
module RedactionText {
  import opened Wrappers
  import opened Chat
  import opened Hex
  import opened Redaction

  // ---------------------------------------------------------------- JSON strings

  /** The character a two-character escape stands for, by section 7 of RFC 8259. */
  function ShortEscape(c: char): Option<char> {
    if c == '"' || c == '\\' || c == '/' then Some(c)
    else if c == 'b' then Some('\U{0008}')
    else if c == 'f' then Some('\U{000C}')
    else if c == 'n' then Some('\n')
    else if c == 'r' then Some('\r')
    else if c == 't' then Some('\t')
    else None
  }

  /** The code point of a \u escape outside the surrogates. */
  function LongEscape(digits: string): Option<char> {
    var v := HexValue(digits);
    if v.Some? && v.value < 0xD800 then Some(v.value as char) else None
  }

  function Prepend(c: Option<char>, rest: Option<string>): Option<string> {
    if c.Some? && rest.Some? then Some([c.value] + rest.value) else None
  }

  /** What stands between the quotes of a JSON string, decoded; surrogate pairs are left out. */
  function Decoded(s: string): Option<string> {
    if s == "" then Some("")
    else if s[0] == '"' || s[0] < ' ' then None
    else if s[0] != '\\' then Prepend(Some(s[0]), Decoded(s[1..]))
    else if |s| >= 2 && s[1] != 'u' then Prepend(ShortEscape(s[1]), Decoded(s[2..]))
    else if |s| >= 6 then Prepend(LongEscape(s[2..6]), Decoded(s[6..]))
    else None
  }

  lemma {:induction false} FourDigits(c: char)
    requires c < ' '
    ensures |HexPadded(c as nat, 4)| == 4 && LongEscape(HexPadded(c as nat, 4)) == Some(c)
  {
    assert Pow16(4) == 0x1_0000;
    HexRoundTrip(c as nat, 4);
  }

  lemma {:induction false} DecodedChar(c: char, rest: string)
    ensures Decoded(EscapedChar(c) + rest) == Prepend(Some(c), Decoded(rest))
  {
    var e, s := EscapedChar(c), EscapedChar(c) + rest;
    if |e| == 1 {
      assert s[1..] == rest;
    } else if |e| == 2 {
      assert s[2..] == rest;
    } else {
      hide HexPadded, LongEscape;
      FourDigits(c);
      assert s[0] == '\\' && s[1] == 'u' && s[2..6] == HexPadded(c as nat, 4) && s[6..] == rest;
    }
  }

  /** Any JSON parser reads back the text that was written. */
  lemma {:induction false} EscapedDecodes(s: string)
    ensures Decoded(Escaped(s)) == Some(s)
  {
    if s != "" {
      hide Decoded, EscapedChar;
      EscapedDecodes(s[1..]);
      DecodedChar(s[0], Escaped(s[1..]));
      assert s == [s[0]] + s[1..];
    } else {
      assert Decoded("") == Some("");
    }
  }

  // ---------------------------------------------------------------- the list of calls

  lemma KeysAre()
    ensures ID_KEY + ":\"" == "{\"id\":\"" && NAME_KEY == "\",\"name\":\"" && ARGUMENTS_KEY == "\",\"arguments\":"
  {
  }

  /** A call is an object of its id, its name and its arguments as they are. */
  lemma CallReads(call: ToolCall)
    ensures CallText(call) == "{\"id\":\"" + Escaped(call.id) + "\",\"name\":\"" + Escaped(call.name)
                              + "\",\"arguments\":" + call.arguments + "}"
  {
    hide Escaped;
    KeysAre();
    Regroup(ID_KEY, ":\"", Escaped(call.id), NAME_KEY, Escaped(call.name), ARGUMENTS_KEY, call.arguments, "}");
  }

  lemma Regroup(a: string, b: string, c: string, d: string, e: string, f: string, g: string, h: string)
    ensures a + (b + (c + ((d + (e + f)) + (g + h)))) == (a + b) + c + d + e + f + g + h
  {
  }

  /** The texts of the calls with commas between them. */
  function Joined(calls: seq<ToolCall>): string {
    if calls == [] then "" else if |calls| == 1 then CallText(calls[0])
    else Joined(calls[..|calls| - 1]) + "," + CallText(calls[|calls| - 1])
  }

  lemma {:induction false} JoinedFront(calls: seq<ToolCall>)
    requires |calls| > 1
    ensures Joined(calls) == CallText(calls[0]) + "," + Joined(calls[1..])
  {
    hide CallText;
    if |calls| == 2 {
      assert calls[..1] == [calls[0]] && calls[1..] == [calls[1]];
    } else {
      var init := calls[..|calls| - 1];
      JoinedFront(init);
      assert init[1..] == calls[1..][..|calls| - 2];
    }
  }

  lemma {:induction false} TailJoined(calls: seq<ToolCall>)
    ensures TailText(calls) == (if calls == [] then "" else "," + Joined(calls)) + "]"
  {
    hide CallText;
    if |calls| == 1 {
      assert calls[1..] == [];
    } else if |calls| > 1 {
      TailJoined(calls[1..]);
      JoinedFront(calls);
    }
  }

  /** The text of a batch is the JSON list of its calls, in order. */
  lemma {:induction false} ListReads(calls: seq<ToolCall>)
    ensures ListText(calls) == "[" + Joined(calls) + "]"
  {
    hide CallText;
    if calls != [] {
      TailJoined(calls[1..]);
      if |calls| > 1 {
        JoinedFront(calls);
      } else {
        assert calls[1..] == [];
      }
    }
  }

  // ---------------------------------------------------------------- rules and words

  /** The rules work one after the other. */
  lemma {:induction false} RulesInOrder(a: seq<Rule>, b: seq<Rule>, text: string)
    ensures Redact(a + b, text) == Redact(b, Redact(a, text))
    decreases |a|
  {
    if a == [] {
      assert a + b == b;
    } else {
      assert (a + b)[1..] == a[1..] + b;
      RulesInOrder(a[1..], b, a[0](text));
    }
  }

  /** The digits that a long token is made of are those that read as hexadecimal. */
  lemma HexDigitsAre(c: char)
    ensures IsHex(c) <==> DigitValue(c).Some?
  {
  }

  /** The edges of what a word is made of below the Unicode tables: digits, letters and the underscore. */
  lemma WordEdges()
    ensures forall c | c in "09AZaz_" :: InWord(c)
    ensures forall c | c in "/:@[^`{-" :: !InWord(c)
  {
  }
}
