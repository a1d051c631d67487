/** The six functions of FIPS 180-4, section 4.1.2, and what they are bit by bit. */
module Sha256Functions {
  type Word = bv32

  function Ch(x: Word, y: Word, z: Word): Word { (x & y) ^ (!x & z) }

  function Maj(x: Word, y: Word, z: Word): Word { (x & y) ^ (x & z) ^ (y & z) }

  // Rotations are written out as section 3.2 defines them: x >> n or x << 32 - n.

  function BigSigma0(x: Word): Word { ((x >> 2) | (x << 30)) ^ ((x >> 13) | (x << 19)) ^ ((x >> 22) | (x << 10)) }

  function BigSigma1(x: Word): Word { ((x >> 6) | (x << 26)) ^ ((x >> 11) | (x << 21)) ^ ((x >> 25) | (x << 7)) }

  function SmallSigma0(x: Word): Word { ((x >> 7) | (x << 25)) ^ ((x >> 18) | (x << 14)) ^ (x >> 3) }

  function SmallSigma1(x: Word): Word { ((x >> 17) | (x << 15)) ^ ((x >> 19) | (x << 13)) ^ (x >> 10) }

  // ---------------------------------------------------------------- bits

  /** The place of a bit, 0 for the least significant one. Places are counted modulo 32, as a rotation needs it. */
  type Place = bv5

  /** The word whose only 1 stands at place `i`. */
  function Hot(i: Place): Word { 1 << i }

  predicate Meets(x: Word, m: Word) { x & m != 0 }

  predicate Bit(x: Word, i: Place) { Meets(x, Hot(i)) }

  /** The exclusive or of three bits. */
  predicate Odd(a: bool, b: bool, c: bool) { a != (b != c) }

  /** At least two of three bits. */
  predicate Most(a: bool, b: bool, c: bool) { (a && b) || (a && c) || (b && c) }

  /** A word has all of the mask or nothing of it. */
  predicate AllOrNothing(x: Word, m: Word) { m != 0 && (x & m == 0 || x & m == m) }

  lemma OneHot(x: Word, i: Place)
    ensures AllOrNothing(x, Hot(i))
  {
  }

  // The solver copes with these when they are taken apart: words without functions, then functions without words.

  lemma Masked(x: Word, m: Word)
    ensures Meets(x, m) <==> x & m != 0
    ensures AllOrNothing(x, m) <==> m != 0 && (x & m == 0 || x & m == m)
  {
  }

  lemma OddIs(a: bool, b: bool, c: bool)
    ensures Odd(a, b, c) <==> a != (b != c)
  {
  }

  lemma MostIs(a: bool, b: bool, c: bool)
    ensures Most(a, b, c) <==> (a && b) || (a && c) || (b && c)
  {
  }

  lemma ChWord(x: Word, y: Word, z: Word, m: Word)
    requires m != 0 && (x & m == 0 || x & m == m) && (y & m == 0 || y & m == m) && (z & m == 0 || z & m == m)
    ensures (((x & y) ^ (!x & z)) & m != 0) <==> if x & m != 0 then y & m != 0 else z & m != 0
  {
  }

  lemma MajSpread(x: Word, y: Word, z: Word, m: Word)
    ensures Maj(x, y, z) & m == Maj(x & m, y & m, z & m)
  {
  }

  lemma MajCases(a: Word, b: Word, c: Word, m: Word)
    requires m != 0 && (a == 0 || a == m) && (b == 0 || b == m) && (c == 0 || c == m)
    ensures Maj(a, b, c) != 0 <==> (a != 0 && b != 0) || (a != 0 && c != 0) || (b != 0 && c != 0)
  {
  }

  lemma MajWord(x: Word, y: Word, z: Word, m: Word)
    requires m != 0 && (x & m == 0 || x & m == m) && (y & m == 0 || y & m == m) && (z & m == 0 || z & m == m)
    ensures Maj(x, y, z) & m != 0 <==>
            (x & m != 0 && y & m != 0) || (x & m != 0 && z & m != 0) || (y & m != 0 && z & m != 0)
  {
    hide *;
    MajSpread(x, y, z, m);
    MajCases(x & m, y & m, z & m, m);
  }

  lemma XorWord(x: Word, y: Word, z: Word, m: Word)
    requires m != 0 && (x & m == 0 || x & m == m) && (y & m == 0 || y & m == m) && (z & m == 0 || z & m == m)
    ensures ((x ^ y ^ z) & m != 0) <==> ((x & m != 0) != ((y & m != 0) != (z & m != 0)))
  {
  }

  lemma ChMask(x: Word, y: Word, z: Word, m: Word)
    requires AllOrNothing(x, m) && AllOrNothing(y, m) && AllOrNothing(z, m)
    ensures Meets((x & y) ^ (!x & z), m) <==> if Meets(x, m) then Meets(y, m) else Meets(z, m)
  {
    hide *;
    Masked(x, m);
    Masked(y, m);
    Masked(z, m);
    Masked((x & y) ^ (!x & z), m);
    ChWord(x, y, z, m);
  }

  lemma MajMask(x: Word, y: Word, z: Word, m: Word)
    requires AllOrNothing(x, m) && AllOrNothing(y, m) && AllOrNothing(z, m)
    ensures Meets(Maj(x, y, z), m) <==> Most(Meets(x, m), Meets(y, m), Meets(z, m))
  {
    hide *;
    Masked(x, m);
    Masked(y, m);
    Masked(z, m);
    Masked(Maj(x, y, z), m);
    MajWord(x, y, z, m);
    MostIs(x & m != 0, y & m != 0, z & m != 0);
  }

  lemma XorMask(x: Word, y: Word, z: Word, m: Word)
    requires AllOrNothing(x, m) && AllOrNothing(y, m) && AllOrNothing(z, m)
    ensures Meets(x ^ y ^ z, m) <==> Odd(Meets(x, m), Meets(y, m), Meets(z, m))
  {
    hide *;
    Masked(x, m);
    Masked(y, m);
    Masked(z, m);
    Masked(x ^ y ^ z, m);
    XorWord(x, y, z, m);
    OddIs(x & m != 0, y & m != 0, z & m != 0);
  }

  lemma ThreeHot(x: Word, y: Word, z: Word, i: Place)
    ensures AllOrNothing(x, Hot(i)) && AllOrNothing(y, Hot(i)) && AllOrNothing(z, Hot(i))
  {
    hide *;
    OneHot(x, i);
    OneHot(y, i);
    OneHot(z, i);
  }

  /** Ch chooses: the second word where the first has a 1, the third elsewhere. */
  lemma ChBits(x: Word, y: Word, z: Word, i: Place)
    ensures Bit(Ch(x, y, z), i) <==> if Bit(x, i) then Bit(y, i) else Bit(z, i)
  {
    hide Hot, AllOrNothing, Meets;
    ThreeHot(x, y, z, i);
    ChMask(x, y, z, Hot(i));
  }

  /** Maj takes the vote: what at least two of the words have. */
  lemma MajBits(x: Word, y: Word, z: Word, i: Place)
    ensures Bit(Maj(x, y, z), i) <==> Most(Bit(x, i), Bit(y, i), Bit(z, i))
  {
    hide Maj, Hot, AllOrNothing, Meets, Most;
    ThreeHot(x, y, z, i);
    MajMask(x, y, z, Hot(i));
  }

  lemma XorBits(x: Word, y: Word, z: Word, i: Place)
    ensures Bit(x ^ y ^ z, i) <==> Odd(Bit(x, i), Bit(y, i), Bit(z, i))
  {
    hide Hot, AllOrNothing, Meets, Odd;
    ThreeHot(x, y, z, i);
    XorMask(x, y, z, Hot(i));
  }

  // ---------------------------------------------------------------- rotations and shifts

  // Rotating to the right by n puts bit i + n into place i; shifting does so as long as there is such a bit.

  lemma Rotated2(x: Word, i: Place)
    ensures Bit((x >> 2) | (x << 30), i) <==> Bit(x, i + 2)
  {
  }

  lemma Rotated6(x: Word, i: Place)
    ensures Bit((x >> 6) | (x << 26), i) <==> Bit(x, i + 6)
  {
  }

  lemma Rotated7(x: Word, i: Place)
    ensures Bit((x >> 7) | (x << 25), i) <==> Bit(x, i + 7)
  {
  }

  lemma Rotated11(x: Word, i: Place)
    ensures Bit((x >> 11) | (x << 21), i) <==> Bit(x, i + 11)
  {
  }

  lemma Rotated13(x: Word, i: Place)
    ensures Bit((x >> 13) | (x << 19), i) <==> Bit(x, i + 13)
  {
  }

  lemma Rotated17(x: Word, i: Place)
    ensures Bit((x >> 17) | (x << 15), i) <==> Bit(x, i + 17)
  {
  }

  lemma Rotated18(x: Word, i: Place)
    ensures Bit((x >> 18) | (x << 14), i) <==> Bit(x, i + 18)
  {
  }

  lemma Rotated19(x: Word, i: Place)
    ensures Bit((x >> 19) | (x << 13), i) <==> Bit(x, i + 19)
  {
  }

  lemma Rotated22(x: Word, i: Place)
    ensures Bit((x >> 22) | (x << 10), i) <==> Bit(x, i + 22)
  {
  }

  lemma Rotated25(x: Word, i: Place)
    ensures Bit((x >> 25) | (x << 7), i) <==> Bit(x, i + 25)
  {
  }

  lemma Shifted3(x: Word, i: Place)
    ensures Bit(x >> 3, i) <==> i < 29 && Bit(x, i + 3)
  {
  }

  lemma Shifted10(x: Word, i: Place)
    ensures Bit(x >> 10, i) <==> i < 22 && Bit(x, i + 10)
  {
  }

  lemma BigSigma0Bits(x: Word, i: Place)
    ensures Bit(BigSigma0(x), i) <==> Odd(Bit(x, i + 2), Bit(x, i + 13), Bit(x, i + 22))
  {
    XorBits((x >> 2) | (x << 30), (x >> 13) | (x << 19), (x >> 22) | (x << 10), i);
    Rotated2(x, i);
    Rotated13(x, i);
    Rotated22(x, i);
    hide Bit;
  }

  lemma BigSigma1Bits(x: Word, i: Place)
    ensures Bit(BigSigma1(x), i) <==> Odd(Bit(x, i + 6), Bit(x, i + 11), Bit(x, i + 25))
  {
    XorBits((x >> 6) | (x << 26), (x >> 11) | (x << 21), (x >> 25) | (x << 7), i);
    Rotated6(x, i);
    Rotated11(x, i);
    Rotated25(x, i);
    hide Bit;
  }

  lemma SmallSigma0Bits(x: Word, i: Place)
    ensures Bit(SmallSigma0(x), i) <==> Odd(Bit(x, i + 7), Bit(x, i + 18), i < 29 && Bit(x, i + 3))
  {
    XorBits((x >> 7) | (x << 25), (x >> 18) | (x << 14), x >> 3, i);
    Rotated7(x, i);
    Rotated18(x, i);
    Shifted3(x, i);
    hide Bit;
  }

  lemma SmallSigma1Bits(x: Word, i: Place)
    ensures Bit(SmallSigma1(x), i) <==> Odd(Bit(x, i + 17), Bit(x, i + 19), i < 22 && Bit(x, i + 10))
  {
    XorBits((x >> 17) | (x << 15), (x >> 19) | (x << 13), x >> 10, i);
    Rotated17(x, i);
    Rotated19(x, i);
    Shifted10(x, i);
    hide Bit;
  }
}
