/** Where the constants of SHA-256 come from (FIPS 180-4, sections 4.2.2 and 5.3.3). */
module Sha256Constants {
  import opened Sha256
  import opened Sha256Functions

  /** `word` is the first 32 bits of the fractional part of the cube root of `p`: `root` is that root in units of 2^-32. */
  predicate CubeRootFraction(p: nat, root: nat, word: Word) {
    && root * root * root <= p * 0x1_0000_0000_0000_0000_0000_0000 < (root + 1) * (root + 1) * (root + 1)
    && word as nat == root % 0x1_0000_0000
  }

  /** The same for the square root. */
  predicate SquareRootFraction(p: nat, root: nat, word: Word) {
    && root * root <= p * 0x1_0000_0000_0000_0000 < (root + 1) * (root + 1)
    && word as nat == root % 0x1_0000_0000
  }

  /** The words are the cube-root fractions of the primes, place by place. */
  predicate CubeRootTable(primes: seq<nat>, roots: seq<nat>, words: seq<Word>) {
    |primes| == |roots| == |words|
    && forall i | 0 <= i < |words| :: CubeRootFraction(primes[i], roots[i], words[i])
  }

  /** The first 64 primes. */
  const P0: seq<nat> := [2, 3, 5, 7, 11, 13, 17, 19]
  const P1: seq<nat> := [23, 29, 31, 37, 41, 43, 47, 53]
  const P2: seq<nat> := [59, 61, 67, 71, 73, 79, 83, 89]
  const P3: seq<nat> := [97, 101, 103, 107, 109, 113, 127, 131]
  const P4: seq<nat> := [137, 139, 149, 151, 157, 163, 167, 173]
  const P5: seq<nat> := [179, 181, 191, 193, 197, 199, 211, 223]
  const P6: seq<nat> := [227, 229, 233, 239, 241, 251, 257, 263]
  const P7: seq<nat> := [269, 271, 277, 281, 283, 293, 307, 311]

  const PRIMES := P0 + P1 + P2 + P3 + P4 + P5 + P6 + P7

  /** The cube roots in units of 2^-32, rounded down. */
  const R0: seq<nat> :=
    [0x1428a2f98, 0x171374491, 0x1b5c0fbcf, 0x1e9b5dba5, 0x23956c25b, 0x259f111f1, 0x2923f82a4, 0x2ab1c5ed5]
  const R1: seq<nat> :=
    [0x2d807aa98, 0x312835b01, 0x3243185be, 0x3550c7dc3, 0x372be5d74, 0x380deb1fe, 0x39bdc06a7, 0x3c19bf174]
  const R2: seq<nat> :=
    [0x3e49b69c1, 0x3efbe4786, 0x40fc19dc6, 0x4240ca1cc, 0x42de92c6f, 0x44a7484aa, 0x45cb0a9dc, 0x476f988da]
  const R3: seq<nat> :=
    [0x4983e5152, 0x4a831c66d, 0x4b00327c8, 0x4bf597fc7, 0x4c6e00bf3, 0x4d5a79147, 0x506ca6351, 0x514292967]
  const R4: seq<nat> :=
    [0x527b70a85, 0x52e1b2138, 0x54d2c6dfc, 0x553380d13, 0x5650a7354, 0x5766a0abb, 0x581c2c92e, 0x592722c85]
  const R5: seq<nat> :=
    [0x5a2bfe8a1, 0x5a81a664b, 0x5c24b8b70, 0x5c76c51a3, 0x5d192e819, 0x5d6990624, 0x5f40e3585, 0x6106aa070]
  const R6: seq<nat> :=
    [0x619a4c116, 0x61e376c08, 0x62748774c, 0x634b0bcb5, 0x6391c0cb3, 0x64ed8aa4a, 0x65b9cca4f, 0x6682e6ff3]
  const R7: seq<nat> :=
    [0x6748f82ee, 0x678a5636f, 0x684c87814, 0x68cc70208, 0x690befffa, 0x6a4506ceb, 0x6bef9a3f7, 0x6c67178f2]

  const CUBE_ROOTS := R0 + R1 + R2 + R3 + R4 + R5 + R6 + R7

  predicate Octet(p: seq<nat>, r: seq<nat>, w: seq<Word>)
    requires |p| == |r| == |w| == 8
  {
    && CubeRootFraction(p[0], r[0], w[0]) && CubeRootFraction(p[1], r[1], w[1])
    && CubeRootFraction(p[2], r[2], w[2]) && CubeRootFraction(p[3], r[3], w[3])
    && CubeRootFraction(p[4], r[4], w[4]) && CubeRootFraction(p[5], r[5], w[5])
    && CubeRootFraction(p[6], r[6], w[6]) && CubeRootFraction(p[7], r[7], w[7])
  }

  lemma JoinOctet(p: seq<nat>, r: seq<nat>, w: seq<Word>, p': seq<nat>, r': seq<nat>, w': seq<Word>)
    requires CubeRootTable(p, r, w) && |p'| == |r'| == |w'| == 8 && Octet(p', r', w')
    ensures CubeRootTable(p + p', r + r', w + w')
  {
    hide CubeRootFraction;
  }

  lemma Octets01()
    ensures Octet(P0, R0, K0) && Octet(P1, R1, K1)
  {
  }

  lemma Octets23()
    ensures Octet(P2, R2, K2) && Octet(P3, R3, K3)
  {
  }

  lemma Octets45()
    ensures Octet(P4, R4, K4) && Octet(P5, R5, K5)
  {
  }

  lemma Octets67()
    ensures Octet(P6, R6, K6) && Octet(P7, R7, K7)
  {
  }

  /** The round constants come from the first 64 primes, in order. */
  lemma RoundConstants()
    ensures CubeRootTable(PRIMES, CUBE_ROOTS, SHA256_K)
  {
    Octets01();
    Octets23();
    Octets45();
    Octets67();
    hide Octet;
    assert CubeRootTable([], [], []) && [] + P0 == P0 && [] + R0 == R0 && [] + K0 == K0;
    hide CubeRootTable;
    JoinOctet([], [], [], P0, R0, K0);
    JoinOctet(P0, R0, K0, P1, R1, K1);
    JoinOctet(P0 + P1, R0 + R1, K0 + K1, P2, R2, K2);
    JoinOctet(P0 + P1 + P2, R0 + R1 + R2, K0 + K1 + K2, P3, R3, K3);
    JoinOctet(P0 + P1 + P2 + P3, R0 + R1 + R2 + R3, K0 + K1 + K2 + K3, P4, R4, K4);
    JoinOctet(P0 + P1 + P2 + P3 + P4, R0 + R1 + R2 + R3 + R4, K0 + K1 + K2 + K3 + K4, P5, R5, K5);
    JoinOctet(P0 + P1 + P2 + P3 + P4 + P5, R0 + R1 + R2 + R3 + R4 + R5, K0 + K1 + K2 + K3 + K4 + K5, P6, R6, K6);
    JoinOctet(P0 + P1 + P2 + P3 + P4 + P5 + P6, R0 + R1 + R2 + R3 + R4 + R5 + R6, K0 + K1 + K2 + K3 + K4 + K5 + K6,
              P7, R7, K7);
  }

  /** The initial value comes from the first 8 primes. */
  lemma InitialValue()
    ensures SquareRootFraction(2, 0x16a09e667, H0.a)
    ensures SquareRootFraction(3, 0x1bb67ae85, H0.b)
    ensures SquareRootFraction(5, 0x23c6ef372, H0.c)
    ensures SquareRootFraction(7, 0x2a54ff53a, H0.d)
    ensures SquareRootFraction(11, 0x3510e527f, H0.e)
    ensures SquareRootFraction(13, 0x39b05688c, H0.f)
    ensures SquareRootFraction(17, 0x41f83d9ab, H0.g)
    ensures SquareRootFraction(19, 0x45be0cd19, H0.h)
  {
  }
}
