/** FNV-1a over 64 bits, the drift hash of the AGENTS.md generator (src/agentsmd.rs). */
module Fnv {
  const OFFSET_BASIS: bv64 := 0xcbf2_9ce4_8422_2325
  function XorByte(state: bv64, b: bv8): bv64 { state ^ (b as bv64) }

  /** The wrapping product with the prime. */
  function Scramble(x: bv64): bv64 { x * 0x0000_0100_0000_01b3 }

  /** One byte: xor, then the product. */
  function Mix(state: bv64, b: bv8): bv64 {
    Scramble(XorByte(state, b))
  }

  function HashFrom(state: bv64, bytes: seq<bv8>): bv64
    decreases |bytes|
  {
    if bytes == [] then state else HashFrom(Mix(state, bytes[0]), bytes[1..])
  }

  function Fnv1a(bytes: seq<bv8>): bv64 {
    HashFrom(OFFSET_BASIS, bytes)
  }

  method Fnv1aLoop(bytes: seq<bv8>) returns (hash: bv64)
    ensures hash == Fnv1a(bytes)
  {
    hide XorByte, Scramble;
    hash := OFFSET_BASIS;
    assert bytes[0..] == bytes;
    for i := 0 to |bytes|
      invariant HashFrom(hash, bytes[i..]) == Fnv1a(bytes)
    {
      assert bytes[i..][1..] == bytes[i + 1..];
      hash := XorByte(hash, bytes[i]);
      hash := Scramble(hash);
    }
  }

  /** The product with the inverse of the prime modulo 2^64. */
  function Unscramble(y: bv64): bv64 { y * 0xce96_5057_aff6_957b }

  lemma ScrambleIs(x: bv64)
    ensures Scramble(x) == x * 0x0000_0100_0000_01b3
  {
  }

  lemma InverseOfProduct(x: bv64)
    ensures Unscramble(x * 0x0000_0100_0000_01b3) == x
  {
  }

  /** The prime is odd, so the product loses nothing. */
  lemma ScrambleInvertible(x: bv64)
    ensures Unscramble(Scramble(x)) == x
  {
    hide Scramble, Unscramble;
    InverseOfProduct(x);
    ScrambleIs(x);
  }

  lemma ScrambleInjective(x: bv64, y: bv64)
    requires Scramble(x) == Scramble(y)
    ensures x == y
  {
    hide Scramble, Unscramble;
    ScrambleInvertible(x);
    ScrambleInvertible(y);
  }

  lemma XorInjective(x: bv64, y: bv64, b: bv8)
    requires XorByte(x, b) == XorByte(y, b)
    ensures x == y
  {
  }

  lemma XorSeparates(x: bv64, a: bv8, b: bv8)
    requires XorByte(x, a) == XorByte(x, b)
    ensures a == b
  {
  }

  /** The step is a bijection of the state. */
  lemma MixInjective(s: bv64, t: bv64, b: bv8)
    requires Mix(s, b) == Mix(t, b)
    ensures s == t
  {
    hide XorByte, Scramble;
    ScrambleInjective(XorByte(s, b), XorByte(t, b));
    XorInjective(s, t, b);
  }

  /** Different bytes lead the same state to different states. */
  lemma MixSeparatesBytes(state: bv64, a: bv8, b: bv8)
    requires Mix(state, a) == Mix(state, b)
    ensures a == b
  {
    hide XorByte, Scramble;
    ScrambleInjective(XorByte(state, a), XorByte(state, b));
    XorSeparates(state, a, b);
  }

  lemma {:induction false} HashConcat(state: bv64, a: seq<bv8>, b: seq<bv8>)
    ensures HashFrom(state, a + b) == HashFrom(HashFrom(state, a), b)
    decreases |a|
  {
    hide Mix;
    if a == [] {
      assert a + b == b;
    } else {
      assert (a + b)[1..] == a[1..] + b;
      HashConcat(Mix(state, a[0]), a[1..], b);
    }
  }

  /** States that differ stay different, whatever follows. */
  lemma {:induction false} StatesStayApart(s: bv64, t: bv64, bytes: seq<bv8>)
    requires HashFrom(s, bytes) == HashFrom(t, bytes)
    ensures s == t
    decreases |bytes|
  {
    hide Mix;
    if bytes != [] {
      StatesStayApart(Mix(s, bytes[0]), Mix(t, bytes[0]), bytes[1..]);
      MixInjective(s, t, bytes[0]);
    }
  }

  /** A single substituted byte always changes the hash, wherever it stands. */
  lemma SubstitutionChangesHash(before: seq<bv8>, a: bv8, b: bv8, after: seq<bv8>)
    requires a != b
    ensures Fnv1a(before + [a] + after) != Fnv1a(before + [b] + after)
  {
    hide Mix;
    var s := HashFrom(OFFSET_BASIS, before);
    HashAround(before, a, after);
    HashAround(before, b, after);
    if HashFrom(Mix(s, a), after) == HashFrom(Mix(s, b), after) {
      StatesStayApart(Mix(s, a), Mix(s, b), after);
      MixSeparatesBytes(s, a, b);
    }
  }

  lemma {:induction false} HashAround(before: seq<bv8>, b: bv8, after: seq<bv8>)
    ensures Fnv1a(before + [b] + after) == HashFrom(Mix(HashFrom(OFFSET_BASIS, before), b), after)
  {
    hide Mix;
    HashConcat(OFFSET_BASIS, before + [b], after);
    HashConcat(OFFSET_BASIS, before, [b]);
    assert [b][1..] == [];
  }

  lemma HashByNumber(x: bv64, y: bv64)
    requires x as nat == y as nat
    ensures x == y
  {
    assert (x as nat) as bv64 == x && (y as nat) as bv64 == y;
  }

  // ---------------------------------------------------------------- known answers

  lemma NextState(state: bv64, b: bv8, mixed: bv64, next: bv64)
    requires XorByte(state, b) == mixed && Scramble(mixed) == next
    ensures Mix(state, b) == next
  {
  }

  lemma {:induction false} OneMore(state: bv64, bytes: seq<bv8>, b: bv8)
    ensures HashFrom(state, bytes + [b]) == Mix(HashFrom(state, bytes), b)
  {
    hide Mix;
    HashConcat(state, bytes, [b]);
    assert [b][1..] == [];
  }

  /** The published values for no byte, for "a" and for "foobar". */
  lemma KnownAnswers()
    ensures Fnv1a([]) == 0xcbf2_9ce4_8422_2325
    ensures Fnv1a([0x61]) == 0xaf63_dc4c_8601_ec8c
    ensures Fnv1a([0x66, 0x6f, 0x6f, 0x62, 0x61, 0x72]) == 0x8594_4171_f739_67e8
  {
    NextState(0xcbf29ce484222325, 0x61, 0xcbf29ce484222344, 0xaf63dc4c8601ec8c);
    NextState(0xcbf29ce484222325, 0x66, 0xcbf29ce484222343, 0xaf63db4c8601ead9);
    NextState(0xaf63db4c8601ead9, 0x6f, 0xaf63db4c8601eab6, 0x08985907b541d342);
    NextState(0x08985907b541d342, 0x6f, 0x08985907b541d32d, 0xdcb27518fed9d577);
    NextState(0xdcb27518fed9d577, 0x62, 0xdcb27518fed9d515, 0xdd120e790c2512af);
    NextState(0xdd120e790c2512af, 0x61, 0xdd120e790c2512ce, 0xcac165afa2fef40a);
    NextState(0xcac165afa2fef40a, 0x72, 0xcac165afa2fef478, 0x85944171f73967e8);
    hide Mix;
    assert HashFrom(OFFSET_BASIS, []) == 0xcbf29ce484222325;
    OneMore(OFFSET_BASIS, [], 0x61);
    OneMore(OFFSET_BASIS, [], 0x66);
    OneMore(OFFSET_BASIS, [0x66], 0x6f);
    OneMore(OFFSET_BASIS, [0x66, 0x6f], 0x6f);
    OneMore(OFFSET_BASIS, [0x66, 0x6f, 0x6f], 0x62);
    OneMore(OFFSET_BASIS, [0x66, 0x6f, 0x6f, 0x62], 0x61);
    OneMore(OFFSET_BASIS, [0x66, 0x6f, 0x6f, 0x62, 0x61], 0x72);
    assert [] + [0x61 as bv8] == [0x61] && [] + [0x66 as bv8] == [0x66];
    assert [0x66 as bv8] + [0x6f] == [0x66, 0x6f] && [0x66 as bv8, 0x6f] + [0x6f] == [0x66, 0x6f, 0x6f];
    assert [0x66 as bv8, 0x6f, 0x6f] + [0x62] == [0x66, 0x6f, 0x6f, 0x62];
    assert [0x66 as bv8, 0x6f, 0x6f, 0x62] + [0x61] == [0x66, 0x6f, 0x6f, 0x62, 0x61];
    assert [0x66 as bv8, 0x6f, 0x6f, 0x62, 0x61] + [0x72] == [0x66, 0x6f, 0x6f, 0x62, 0x61, 0x72];
  }
}
