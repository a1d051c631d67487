/** Zero-padded hexadecimal notation, as `{:08x}` and `{:016x}` print it, and reading it back. */
module Hex {
  import opened Wrappers

  /** 16 to the power `k`. */
  function Pow16(k: nat): (p: nat)
    ensures p >= 1
  {
    if k == 0 then 1 else 16 * Pow16(k - 1)
  }

  function HexDigit(d: nat): (c: char)
    requires d < 16
    ensures '0' <= c <= '9' || 'a' <= c <= 'f'
    ensures DigitValue(c) == Some(d)
  {
    if d < 10 then '0' + (d as char) else 'a' + ((d - 10) as char)
  }

  /** The value of a digit of either case. */
  function DigitValue(c: char): (v: Option<nat>)
    ensures v.Some? ==> v.value < 16
  {
    if '0' <= c <= '9' then Some(c as nat - '0' as nat)
    else if 'a' <= c <= 'f' then Some(c as nat - 'a' as nat + 10)
    else if 'A' <= c <= 'F' then Some(c as nat - 'A' as nat + 10)
    else None
  }

  /** A digit is read in either case. */
  lemma DigitIs(c: char, d: nat)
    requires d < 16
    ensures DigitValue(c) == Some(d) <==> c == "0123456789abcdef"[d] || c == "0123456789ABCDEF"[d]
  {
    assert d < 10 ==> "0123456789abcdef"[d] as nat == '0' as nat + d && "0123456789ABCDEF"[d] as nat == '0' as nat + d;
    assert d >= 10 ==> "0123456789abcdef"[d] as nat == 'a' as nat + d - 10 && "0123456789ABCDEF"[d] as nat == 'A' as nat + d - 10;
  }

  /** The last `width` digits of `n`. */
  function HexPadded(n: nat, width: nat): (s: string)
    ensures |s| == width
    ensures forall c | c in s :: '0' <= c <= '9' || 'a' <= c <= 'f'
  {
    if width == 0 then "" else HexPadded(n / 16, width - 1) + [HexDigit(n % 16)]
  }

  /** Value of a digit string, or nothing when some character is no digit. */
  function HexValue(s: string): Option<nat> {
    if s == "" then Some(0)
    else
      var high, low := HexValue(s[..|s| - 1]), DigitValue(s[|s| - 1]);
      if high.None? || low.None? then None else Some(16 * high.value + low.value)
  }

  lemma LastDigit(n: nat, p: nat)
    requires n < 16 * p
    ensures n / 16 < p && n == 16 * (n / 16) + n % 16
  {
  }

  /** Reading what was printed gives the number back when it fits the width. */
  lemma {:induction false} HexRoundTrip(n: nat, width: nat)
    requires n < Pow16(width)
    ensures HexValue(HexPadded(n, width)) == Some(n)
  {
    hide DigitValue, HexDigit;
    if width > 0 {
      var s := HexPadded(n, width);
      LastDigit(n, Pow16(width - 1));
      hide Pow16;
      HexRoundTrip(n / 16, width - 1);
      assert s[..|s| - 1] == HexPadded(n / 16, width - 1);
    }
  }

  lemma {:induction false} HexInjective(a: nat, b: nat, width: nat)
    requires a < Pow16(width) && b < Pow16(width)
    requires HexPadded(a, width) == HexPadded(b, width)
    ensures a == b
  {
    HexRoundTrip(a, width);
    HexRoundTrip(b, width);
  }

  lemma Pow16Values()
    ensures Pow16(8) == 0x1_0000_0000
    ensures Pow16(16) == 0x1_0000_0000_0000_0000
  {
    assert Pow16(4) == 0x1_0000;
    assert Pow16(8) == 16 * (16 * (16 * (16 * Pow16(4))));
    assert Pow16(12) == 16 * (16 * (16 * (16 * Pow16(8))));
    assert Pow16(16) == 16 * (16 * (16 * (16 * Pow16(12))));
  }
}
