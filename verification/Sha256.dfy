/** SHA-256 as the repository writes it out (src/archunit.rs), against FIPS 180-4. */
module Sha256 {
  import opened Hex
  import opened Sha256Functions

  type Byte = x: int | 0 <= x < 256

  /** Addition modulo 2^32. */
  function WrappingAdd(x: Word, y: Word): Word { x + y }

  // ---------------------------------------------------------------- sections 4.2.2 and 5.3.3

  const K0: seq<Word> := [0x428a2f98, 0x71374491, 0xb5c0fbcf, 0xe9b5dba5, 0x3956c25b, 0x59f111f1, 0x923f82a4, 0xab1c5ed5]
  const K1: seq<Word> := [0xd807aa98, 0x12835b01, 0x243185be, 0x550c7dc3, 0x72be5d74, 0x80deb1fe, 0x9bdc06a7, 0xc19bf174]
  const K2: seq<Word> := [0xe49b69c1, 0xefbe4786, 0x0fc19dc6, 0x240ca1cc, 0x2de92c6f, 0x4a7484aa, 0x5cb0a9dc, 0x76f988da]
  const K3: seq<Word> := [0x983e5152, 0xa831c66d, 0xb00327c8, 0xbf597fc7, 0xc6e00bf3, 0xd5a79147, 0x06ca6351, 0x14292967]
  const K4: seq<Word> := [0x27b70a85, 0x2e1b2138, 0x4d2c6dfc, 0x53380d13, 0x650a7354, 0x766a0abb, 0x81c2c92e, 0x92722c85]
  const K5: seq<Word> := [0xa2bfe8a1, 0xa81a664b, 0xc24b8b70, 0xc76c51a3, 0xd192e819, 0xd6990624, 0xf40e3585, 0x106aa070]
  const K6: seq<Word> := [0x19a4c116, 0x1e376c08, 0x2748774c, 0x34b0bcb5, 0x391c0cb3, 0x4ed8aa4a, 0x5b9cca4f, 0x682e6ff3]
  const K7: seq<Word> := [0x748f82ee, 0x78a5636f, 0x84c87814, 0x8cc70208, 0x90befffa, 0xa4506ceb, 0xbef9a3f7, 0xc67178f2]

  const SHA256_K := K0 + K1 + K2 + K3 + K4 + K5 + K6 + K7

  datatype Vars = Vars(a: Word, b: Word, c: Word, d: Word, e: Word, f: Word, g: Word, h: Word)

  const H0 := Vars(0x6a09e667, 0xbb67ae85, 0x3c6ef372, 0xa54ff53a, 0x510e527f, 0x9b05688c, 0x1f83d9ab, 0x5be0cd19)

  // ---------------------------------------------------------------- section 6.2.2

  /** The t-th big-endian word of a block. */
  function MessageWord(block: seq<Byte>, t: nat): Word
    requires |block| == 64 && t < 16
  {
    BigEndianWord(block[4 * t], block[4 * t + 1], block[4 * t + 2], block[4 * t + 3])
  }

  function BigEndianWord(b0: Byte, b1: Byte, b2: Byte, b3: Byte): Word {
    ((b0 as bv32) << 24) | ((b1 as bv32) << 16) | ((b2 as bv32) << 8) | (b3 as bv32)
  }

  function Sum4(a: Word, b: Word, c: Word, d: Word): Word { a + b + c + d }

  function Sum5(a: Word, b: Word, c: Word, d: Word, e: Word): Word { a + b + c + d + e }

  /** What the t-th word of the schedule must be, given the earlier ones. */
  function ScheduleWord(block: seq<Byte>, w: seq<Word>, t: nat): Word
    requires |block| == 64 && t <= |w|
  {
    if t < 16 then MessageWord(block, t)
    else Sum4(SmallSigma1(w[t - 2]), w[t - 7], SmallSigma0(w[t - 15]), w[t - 16])
  }

  /** The first `n` words of the message schedule. */
  function MessageSchedule(block: seq<Byte>, n: nat): (w: seq<Word>)
    requires |block| == 64
    ensures |w| == n
  {
    if n == 0 then []
    else
      var w := MessageSchedule(block, n - 1);
      w + [ScheduleWord(block, w, n - 1)]
  }

  /** Each word of the schedule is tied to its predecessors by the recurrence of the standard. */
  lemma {:induction false} ScheduleRecurrence(block: seq<Byte>, n: nat, t: nat)
    requires |block| == 64 && t < n
    ensures var w := MessageSchedule(block, n); w[t] == ScheduleWord(block, w, t)
  {
    hide SmallSigma0, SmallSigma1, Sum4, MessageWord;
    if t < n - 1 {
      ScheduleRecurrence(block, n - 1, t);
    }
  }

  function Round(v: Vars, k: Word, w: Word): Vars {
    var t1 := Sum5(v.h, BigSigma1(v.e), Ch(v.e, v.f, v.g), k, w);
    var t2 := WrappingAdd(BigSigma0(v.a), Maj(v.a, v.b, v.c));
    Vars(WrappingAdd(t1, t2), v.a, v.b, v.c, WrappingAdd(v.d, t1), v.e, v.f, v.g)
  }

  function Rounds(v: Vars, w: seq<Word>, t: nat): Vars
    requires |w| == 64 && t <= 64
  {
    if t == 0 then v else Round(Rounds(v, w, t - 1), SHA256_K[t - 1], w[t - 1])
  }

  function Plus(x: Vars, y: Vars): Vars {
    Vars(WrappingAdd(x.a, y.a), WrappingAdd(x.b, y.b), WrappingAdd(x.c, y.c), WrappingAdd(x.d, y.d),
         WrappingAdd(x.e, y.e), WrappingAdd(x.f, y.f), WrappingAdd(x.g, y.g), WrappingAdd(x.h, y.h))
  }

  function Compress(h: Vars, block: seq<Byte>): Vars
    requires |block| == 64
  {
    Plus(h, Rounds(h, MessageSchedule(block, 64), 64))
  }

  /** The hash computation: a left fold of the compression over the 64-byte blocks. */
  function HashBlocks(h: Vars, m: seq<Byte>): Vars
    decreases |m|
  {
    if |m| < 64 then h else HashBlocks(Compress(h, m[..64]), m[64..])
  }

  lemma {:induction false} HashBlocksConcat(h: Vars, a: seq<Byte>, b: seq<Byte>)
    requires |a| % 64 == 0
    ensures HashBlocks(h, a + b) == HashBlocks(HashBlocks(h, a), b)
    decreases |a|
  {
    if a == [] {
      assert a + b == b;
    } else {
      assert (a + b)[..64] == a[..64] && (a + b)[64..] == a[64..] + b;
      HashBlocksConcat(Compress(h, a[..64]), a[64..], b);
    }
  }

  // ---------------------------------------------------------------- section 5.1.1: padding

  function Zeros(n: nat): (z: seq<Byte>)
    ensures |z| == n
    ensures forall i | 0 <= i < n :: z[i] == 0
  {
    if n == 0 then [] else Zeros(n - 1) + [0]
  }

  /** The last `width` bytes of `n`, most significant first. */
  function BigEndian(n: nat, width: nat): (s: seq<Byte>)
    ensures |s| == width
  {
    if width == 0 then [] else BigEndian(n / 256, width - 1) + [n % 256]
  }

  function Pow256(k: nat): (p: nat)
    ensures p >= 1
  {
    if k == 0 then 1 else 256 * Pow256(k - 1)
  }

  /** The number that bytes stand for, most significant first. */
  function FromBigEndian(s: seq<Byte>): nat {
    if s == [] then 0 else 256 * FromBigEndian(s[..|s| - 1]) + s[|s| - 1]
  }

  lemma {:induction false} BigEndianReads(n: nat, width: nat)
    requires n < Pow256(width)
    ensures FromBigEndian(BigEndian(n, width)) == n
  {
    if width > 0 {
      BigEndianReads(n / 256, width - 1);
      assert BigEndian(n, width)[..width - 1] == BigEndian(n / 256, width - 1);
    }
  }

  lemma {:induction false} BigEndianInjective(a: nat, b: nat, width: nat)
    requires a < Pow256(width) && b < Pow256(width)
    requires BigEndian(a, width) == BigEndian(b, width)
    ensures a == b
  {
    BigEndianReads(a, width);
    BigEndianReads(b, width);
  }

  lemma Pow256Value()
    ensures Pow256(8) == 0x1_0000_0000_0000_0000
  {
    assert Pow256(4) == 0x1_0000_0000;
    assert Pow256(8) == 256 * (256 * (256 * (256 * Pow256(4))));
  }

  /**
   Section 5.1.1 on whole bytes: the bit 1, the least number `k` of zero bits that brings the length
   to 448 modulo 512, and the bit length in 64 bits. The byte 0x80 holds the 1 and seven of the zeros, `z` more
   bytes the rest.
   */
  ghost predicate IsPadding(m: seq<Byte>, p: seq<Byte>, z: nat) {
    && LeastZeroBits(8 * |m|, 7 + 8 * z)
    && 8 * |m| < 0x1_0000_0000_0000_0000
    && p == m + [0x80] + Zeros(z) + BigEndian(8 * |m|, 8)
  }

  ghost predicate LeastZeroBits(bits: nat, k: nat) {
    Fits(bits, k) && forall j: nat | j < k :: !Fits(bits, j)
  }

  ghost predicate Fits(bits: nat, zeros: nat) {
    (bits + 1 + zeros) % 512 == 448
  }

  /** The length field: the bit length, saturating at the largest 64-bit value. */
  function BitLength(bytes: nat): (n: nat)
    ensures n < 0x1_0000_0000_0000_0000
    ensures bytes < 0x2000_0000_0000_0000 ==> n == 8 * bytes
    ensures 0x2000_0000_0000_0000 <= bytes <= 0xffff_ffff_ffff_ffff ==> n == 0xffff_ffff_ffff_ffff
    ensures bytes > 0xffff_ffff_ffff_ffff ==> n == 0xffff_ffff_ffff_fff8
  {
    var max := 0xffff_ffff_ffff_ffff;
    var len := if bytes <= max then bytes else max / 8;
    if 8 * len <= max then 8 * len else max
  }

  function ZeroBytes(bytes: nat): (z: nat)
    ensures z < 64 && (bytes + 1 + z) % 64 == 56
  {
    (119 - bytes % 64) % 64
  }

  function Pad(m: seq<Byte>): seq<Byte> {
    m + [0x80] + Zeros(ZeroBytes(|m|)) + BigEndian(BitLength(|m|), 8)
  }

  /** The padding loop, byte by byte. */
  method PadMessage(data: seq<Byte>) returns (msg: seq<Byte>)
    ensures msg == Pad(data)
  {
    msg := data + [0x80];
    ghost var z := 0;
    while |msg| % 64 != 56
      invariant z <= ZeroBytes(|data|)
      invariant msg == data + [0x80] + Zeros(z)
      decreases ZeroBytes(|data|) - z
    {
      SameResidue(|data|, z);
      msg := msg + [0];
      z := z + 1;
    }
    SameResidue(|data|, z);
    msg := msg + BigEndian(BitLength(|data|), 8);
  }

  lemma SameResidue(bytes: nat, z: nat)
    requires z <= ZeroBytes(bytes)
    ensures (bytes + 1 + z) % 64 == 56 <==> z == ZeroBytes(bytes)
  {
    Congruent(bytes + 1 + z, ZeroBytes(bytes) - z, 64);
  }

  /** Two numbers less than `n` apart have the same remainder only when they are equal. */
  lemma Congruent(x: nat, gap: nat, n: nat)
    requires 0 < n && gap < n
    ensures x % n == (x + gap) % n <==> gap == 0
  {
    var q, r := x / n, x % n;
    assert x == n * q + r;
    if r + gap < n {
      assert (x + gap) / n == q by { Quotient(x + gap, n, q, r + gap); }
    } else {
      assert (x + gap) / n == q + 1 by {
        assert n * (q + 1) == n * q + n;
        Quotient(x + gap, n, q + 1, r + gap - n);
      }
    }
  }

  lemma Quotient(x: nat, n: nat, q: nat, r: nat)
    requires 0 < n && x == n * q + r && r < n
    ensures x / n == q && x % n == r
  {
    var p, s := x / n, x % n;
    assert n * p + s == n * q + r;
    Separate(n, p, s, q, r);
    Separate(n, q, r, p, s);
  }

  lemma Separate(n: nat, p: nat, s: nat, q: nat, r: nat)
    requires s < n && n * p + s == n * q + r
    ensures p >= q
  {
    Multiples(n, q - p);
    assert n * (q - p) == s - r;
  }

  lemma Multiples(n: nat, k: int)
    ensures k >= 1 ==> n * k >= n
  {
  }

  lemma LeastZeros(bytes: nat)
    ensures LeastZeroBits(8 * bytes, 7 + 8 * ZeroBytes(bytes))
  {
    var bits, k := 8 * bytes, 7 + 8 * ZeroBytes(bytes);
    var blocks := (bytes + 1 + ZeroBytes(bytes)) / 64;
    assert bits + 1 + k == 512 * blocks + 448;
    Quotient(bits + 1 + k, 512, blocks, 448);
    forall j: nat | j < k ensures !Fits(bits, j) {
      Congruent(bits + 1 + j, k - j, 512);
    }
  }

  /** For messages shorter than 2^61 bytes the loop yields exactly the padding of the standard. */
  lemma PadIsFips(m: seq<Byte>)
    requires |m| < 0x2000_0000_0000_0000
    ensures IsPadding(m, Pad(m), ZeroBytes(|m|))
    ensures |Pad(m)| % 64 == 0
  {
    hide ZeroBytes, BigEndian, Zeros, LeastZeroBits;
    LeastZeros(|m|);
    PadLength(m);
  }

  lemma PadLength(m: seq<Byte>)
    ensures |Pad(m)| % 64 == 0
  {
    hide ZeroBytes, BitLength, BigEndian, Zeros;
    var n := |m| + 1 + ZeroBytes(|m|);
    assert n == 64 * (n / 64) + 56;
    assert |Pad(m)| == n + 8;
    Quotient(n + 8, 64, n / 64 + 1, 0);
  }

  /** The standard leaves no choice: a message has one padding. */
  lemma PaddingUnique(m: seq<Byte>, p: seq<Byte>, q: seq<Byte>, y: nat, z: nat)
    requires IsPadding(m, p, y) && IsPadding(m, q, z)
    ensures p == q
  {
    assert !(7 + 8 * y < 7 + 8 * z) && !(7 + 8 * z < 7 + 8 * y);
  }

  /** Whatever satisfies section 5.1.1 for a message is what the loop computes, so the digests agree. */
  lemma {:induction false} DigestIsFips(m: seq<Byte>, p: seq<Byte>, z: nat)
    requires IsPadding(m, p, z)
    ensures p == Pad(m) && |p| % 64 == 0
    ensures HashBlocks(H0, p) == HashBlocks(H0, Pad(m))
  {
    hide Pad, ZeroBytes, HashBlocks;
    PadIsFips(m);
    PaddingUnique(m, p, Pad(m), z, ZeroBytes(|m|));
  }

  /** Equal padded messages come from equal messages. */
  lemma PadInjective(m: seq<Byte>, n: seq<Byte>)
    requires |m| < 0x2000_0000_0000_0000 && |n| < 0x2000_0000_0000_0000
    requires Pad(m) == Pad(n)
    ensures m == n
  {
    var p, q := Pad(m), Pad(n);
    assert p[|p| - 8..] == BigEndian(8 * |m|, 8);
    assert q[|q| - 8..] == BigEndian(8 * |n|, 8);
    Pow256Value();
    BigEndianInjective(8 * |m|, 8 * |n|, 8);
    assert p[..|m|] == m && q[..|n|] == n;
  }

  // ---------------------------------------------------------------- the implementation

  /** The printed digest: eight lower-case digits for each word. */
  function HexWords(words: seq<Word>): (s: string)
    ensures |s| == 8 * |words|
  {
    if words == [] then "" else HexWords(words[..|words| - 1]) + HexWord(words[|words| - 1])
  }

  function HexWord(w: Word): (s: string)
    ensures |s| == 8
  {
    HexPadded(w as nat, 8)
  }

  function Words(v: Vars): seq<Word> {
    [v.a, v.b, v.c, v.d, v.e, v.f, v.g, v.h]
  }

  /** Different digests print differently. */
  lemma {:induction false} HexWordsInjective(x: seq<Word>, y: seq<Word>)
    requires HexWords(x) == HexWords(y)
    ensures x == y
  {
    hide HexWord;
    assert |HexWords(x)| == |HexWords(y)|;
    if x != [] {
      var n := |x| - 1;
      ConcatCancel(HexWords(x[..n]), HexWord(x[n]), HexWords(y[..n]), HexWord(y[n]));
      HexWordsInjective(x[..n], y[..n]);
      WordInjective(x[n], y[n]);
      assert x == x[..n] + [x[n]] && y == y[..n] + [y[n]];
    }
  }

  lemma ConcatCancel(a: string, b: string, c: string, d: string)
    requires a + b == c + d && |a| == |c|
    ensures a == c && b == d
  {
    assert a == (a + b)[..|a|] && c == (c + d)[..|a|];
    assert b == (a + b)[|a|..] && d == (c + d)[|a|..];
  }

  lemma WordInjective(x: Word, y: Word)
    requires HexWord(x) == HexWord(y)
    ensures x == y
  {
    WordRange(x);
    WordRange(y);
    HexInjective(x as nat, y as nat, 8);
    WordByNumber(x, y);
  }

  lemma WordRange(x: Word)
    ensures x as nat < Pow16(8)
  {
    Pow16Values();
  }

  lemma WordByNumber(x: Word, y: Word)
    requires x as nat == y as nat
    ensures x == y
  {
    assert (x as nat) as bv32 == x && (y as nat) as bv32 == y;
  }

  function Loaded(h: array<Word>): Vars
    requires h.Length == 8
    reads h
  {
    Vars(h[0], h[1], h[2], h[3], h[4], h[5], h[6], h[7])
  }

  /** The code mixes with built-in rotations; the results are those of the standard. */
  method Mix(x: Word) returns (small0: Word, small1: Word, big0: Word, big1: Word)
    ensures small0 == SmallSigma0(x) && small1 == SmallSigma1(x)
    ensures big0 == BigSigma0(x) && big1 == BigSigma1(x)
  {
    small0 := x.RotateRight(7) ^ x.RotateRight(18) ^ (x >> 3);
    small1 := x.RotateRight(17) ^ x.RotateRight(19) ^ (x >> 10);
    big0 := x.RotateRight(2) ^ x.RotateRight(13) ^ x.RotateRight(22);
    big1 := x.RotateRight(6) ^ x.RotateRight(11) ^ x.RotateRight(25);
  }

  lemma SumOrder(a: Word, b: Word, c: Word, d: Word)
    ensures Sum4(a, b, c, d) == d + c + b + a
  {
  }

  method Schedule(block: seq<Byte>) returns (w: array<Word>)
    requires |block| == 64
    ensures w.Length == 64 && fresh(w)
    ensures w[..] == MessageSchedule(block, 64)
  {
    hide SmallSigma0, SmallSigma1, Sum4, BigEndianWord;
    w := new Word[64](_ => 0);
    for i := 0 to 16
      invariant w[..i] == MessageSchedule(block, i)
    {
      var j := i * 4;
      w[i] := BigEndianWord(block[j], block[j + 1], block[j + 2], block[j + 3]);
      assert w[..i + 1] == w[..i] + [w[i]];
    }
    for i := 16 to 64
      invariant w[..i] == MessageSchedule(block, i)
    {
      var next := ExtendSchedule(w[i - 16], w[i - 15], w[i - 7], w[i - 2]);
      w[i] := next;
      assert w[..i + 1] == w[..i] + [w[i]];
    }
    assert w[..64] == w[..];
  }

  /** The next word: the code adds in the opposite order. */
  method ExtendSchedule(w16: Word, w15: Word, w7: Word, w2: Word) returns (next: Word)
    ensures next == Sum4(SmallSigma1(w2), w7, SmallSigma0(w15), w16)
  {
    hide SmallSigma0, SmallSigma1, BigSigma0, BigSigma1, Sum4;
    var s0, _, _, _ := Mix(w15);
    var _, s1, _, _ := Mix(w2);
    next := w16 + s0 + w7 + s1;
    SumOrder(s1, w7, s0, w16);
  }

  method OneRound(v: Vars, k: Word, w: Word) returns (next: Vars)
    ensures next == Round(v, k, w)
  {
    hide SmallSigma0, SmallSigma1, BigSigma0, BigSigma1, Ch, Maj, Sum5, WrappingAdd;
    var Vars(a, b, c, d, e, f, g, hh) := v;
    var _, _, _, s1 := Mix(e);
    var t1 := Sum5(hh, s1, Ch(e, f, g), k, w);
    var _, _, s0, _ := Mix(a);
    var t2 := WrappingAdd(s0, Maj(a, b, c));
    hh := g;
    g := f;
    f := e;
    e := WrappingAdd(d, t1);
    d := c;
    c := b;
    b := a;
    a := WrappingAdd(t1, t2);
    next := Vars(a, b, c, d, e, f, g, hh);
  }

  method CompressBlock(h: array<Word>, block: seq<Byte>)
    requires h.Length == 8 && |block| == 64
    modifies h
    ensures Loaded(h) == Compress(old(Loaded(h)), block)
  {
    hide Round, WrappingAdd, MessageSchedule;
    var w := Schedule(block);
    var v := Vars(h[0], h[1], h[2], h[3], h[4], h[5], h[6], h[7]);
    ghost var start, schedule := v, w[..];
    for i := 0 to 64
      invariant w[..] == schedule && Loaded(h) == start
      invariant v == Rounds(start, schedule, i)
    {
      assert schedule[i] == w[i];
      v := OneRound(v, SHA256_K[i], w[i]);
    }
    h[0], h[1], h[2], h[3] :=
      WrappingAdd(h[0], v.a), WrappingAdd(h[1], v.b), WrappingAdd(h[2], v.c), WrappingAdd(h[3], v.d);
    h[4], h[5], h[6], h[7] :=
      WrappingAdd(h[4], v.e), WrappingAdd(h[5], v.f), WrappingAdd(h[6], v.g), WrappingAdd(h[7], v.h);
  }

  /** The loop over the blocks. */
  method HashMessage(h: array<Word>, msg: seq<Byte>)
    requires h.Length == 8
    modifies h
    ensures Loaded(h) == HashBlocks(old(Loaded(h)), msg)
  {
    var i := 0;
    ghost var v := Loaded(h);
    assert msg[0..] == msg;
    while i + 64 <= |msg|
      invariant i <= |msg|
      invariant HashBlocks(v, msg) == HashBlocks(Loaded(h), msg[i..])
    {
      assert msg[i..][..64] == msg[i..i + 64] && msg[i..][64..] == msg[i + 64..];
      CompressBlock(h, msg[i..i + 64]);
      i := i + 64;
    }
  }

  /** The whole function: initial value, padding, the blocks, and the printed digest. */
  method Sha256Hex(data: seq<Byte>) returns (out: string)
    ensures out == HexWords(Words(HashBlocks(H0, Pad(data))))
  {
    hide HashBlocks, Pad, HexWords;
    var h := new Word[8];
    h[0], h[1], h[2], h[3] := 0x6a09e667, 0xbb67ae85, 0x3c6ef372, 0xa54ff53a;
    h[4], h[5], h[6], h[7] := 0x510e527f, 0x9b05688c, 0x1f83d9ab, 0x5be0cd19;
    assert Loaded(h) == H0;
    var msg := PadMessage(data);
    HashMessage(h, msg);
    assert h[..] == Words(Loaded(h));
    out := PrintWords(h);
  }

  method PrintWords(h: array<Word>) returns (out: string)
    ensures out == HexWords(h[..])
  {
    out := "";
    for k := 0 to h.Length
      invariant out == HexWords(h[..k])
    {
      assert h[..k + 1][..k] == h[..k];
      out := out + HexWord(h[k]);
    }
    assert h[..h.Length] == h[..];
  }
}
