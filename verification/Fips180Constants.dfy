/** Where the constants of SHA-256 come from (sections 4.2.2 and 5.3.3 of FIPS 180-4):
    the first thirty-two bits of the fractional parts of roots of primes. */
module Fips180Constants {
  import opened Fips180

  // the first sixty-four primes, eight to a row as the table of constants
  const P0: seq<int> := [2, 3, 5, 7, 11, 13, 17, 19]
  const P1: seq<int> := [23, 29, 31, 37, 41, 43, 47, 53]
  const P2: seq<int> := [59, 61, 67, 71, 73, 79, 83, 89]
  const P3: seq<int> := [97, 101, 103, 107, 109, 113, 127, 131]
  const P4: seq<int> := [137, 139, 149, 151, 157, 163, 167, 173]
  const P5: seq<int> := [179, 181, 191, 193, 197, 199, 211, 223]
  const P6: seq<int> := [227, 229, 233, 239, 241, 251, 257, 263]
  const P7: seq<int> := [269, 271, 277, 281, 283, 293, 307, 311]

  const PRIMES: seq<int> := P0 + P1 + P2 + P3 + P4 + P5 + P6 + P7

  /** n is floor(2^32 * cbrt(p)). */
  predicate CubeRootAt(n: nat, p: int) {
    n * n * n <= p * 0x1_0000_0000_0000_0000_0000_0000 < (n + 1) * (n + 1) * (n + 1)
  }

  /** n is floor(2^32 * sqrt(p)). */
  predicate SquareRootAt(n: nat, p: int) {
    n * n <= p * 0x1_0000_0000_0000_0000 < (n + 1) * (n + 1)
  }

  /** The `t`-th word of a table is the fractional part of the cube root of `p`. */
  ghost predicate IsCubeRoot(table: seq<bv32>, t: nat, p: int)
    requires t < |table|
  {
    exists n: nat :: CubeRootAt(n, p) && n % 0x1_0000_0000 == table[t] as int
  }

  ghost predicate IsSquareRoot(table: seq<bv32>, t: nat, p: int)
    requires t < |table|
  {
    exists n: nat :: SquareRootAt(n, p) && n % 0x1_0000_0000 == table[t] as int
  }

  lemma CubeRoot(table: seq<bv32>, t: nat, p: int, n: nat)
    requires t < |table| && CubeRootAt(n, p) && n % 0x1_0000_0000 == table[t] as int
    ensures IsCubeRoot(table, t, p)
  {
  }

  lemma SquareRoot(table: seq<bv32>, t: nat, p: int, n: nat)
    requires t < |table| && SquareRootAt(n, p) && n % 0x1_0000_0000 == table[t] as int
    ensures IsSquareRoot(table, t, p)
  {
  }

  ghost predicate AreCubeRoots(table: seq<bv32>, primes: seq<int>) {
    && |table| == |primes|
    && forall t :: 0 <= t < |table| ==> IsCubeRoot(table, t, primes[t])
  }

  ghost predicate AreSquareRoots(table: seq<bv32>, primes: seq<int>) {
    && |table| == |primes|
    && forall t :: 0 <= t < |table| ==> IsSquareRoot(table, t, primes[t])
  }

  lemma CubeRootsConcat(a: seq<bv32>, pa: seq<int>, b: seq<bv32>, pb: seq<int>)
    requires AreCubeRoots(a, pa) && AreCubeRoots(b, pb)
    ensures AreCubeRoots(a + b, pa + pb)
  {
    forall t | 0 <= t < |a + b| ensures IsCubeRoot(a + b, t, (pa + pb)[t]) {
      if t < |a| {
        assert IsCubeRoot(a, t, pa[t]);
      } else {
        assert IsCubeRoot(b, t - |a|, pb[t - |a|]);
      }
    }
  }

  /** The initial hash words are square roots of the first eight primes. */
  lemma InitialWordsAreSquareRoots()
    ensures AreSquareRoots(H0, P0)
  {
    SquareRoot(H0, 0, 2, 0x1_6a09e667);
    SquareRoot(H0, 1, 3, 0x1_bb67ae85);
    SquareRoot(H0, 2, 5, 0x2_3c6ef372);
    SquareRoot(H0, 3, 7, 0x2_a54ff53a);
    SquareRoot(H0, 4, 11, 0x3_510e527f);
    SquareRoot(H0, 5, 13, 0x3_9b05688c);
    SquareRoot(H0, 6, 17, 0x4_1f83d9ab);
    SquareRoot(H0, 7, 19, 0x4_5be0cd19);
  }

  lemma Row0()
    ensures AreCubeRoots(K0, P0)
  {
    CubeRoot(K0, 0, 2, 0x1_428a2f98);
    CubeRoot(K0, 1, 3, 0x1_71374491);
    CubeRoot(K0, 2, 5, 0x1_b5c0fbcf);
    CubeRoot(K0, 3, 7, 0x1_e9b5dba5);
    CubeRoot(K0, 4, 11, 0x2_3956c25b);
    CubeRoot(K0, 5, 13, 0x2_59f111f1);
    CubeRoot(K0, 6, 17, 0x2_923f82a4);
    CubeRoot(K0, 7, 19, 0x2_ab1c5ed5);
  }

  lemma Row1()
    ensures AreCubeRoots(K1, P1)
  {
    CubeRoot(K1, 0, 23, 0x2_d807aa98);
    CubeRoot(K1, 1, 29, 0x3_12835b01);
    CubeRoot(K1, 2, 31, 0x3_243185be);
    CubeRoot(K1, 3, 37, 0x3_550c7dc3);
    CubeRoot(K1, 4, 41, 0x3_72be5d74);
    CubeRoot(K1, 5, 43, 0x3_80deb1fe);
    CubeRoot(K1, 6, 47, 0x3_9bdc06a7);
    CubeRoot(K1, 7, 53, 0x3_c19bf174);
  }

  lemma Row2()
    ensures AreCubeRoots(K2, P2)
  {
    CubeRoot(K2, 0, 59, 0x3_e49b69c1);
    CubeRoot(K2, 1, 61, 0x3_efbe4786);
    CubeRoot(K2, 2, 67, 0x4_0fc19dc6);
    CubeRoot(K2, 3, 71, 0x4_240ca1cc);
    CubeRoot(K2, 4, 73, 0x4_2de92c6f);
    CubeRoot(K2, 5, 79, 0x4_4a7484aa);
    CubeRoot(K2, 6, 83, 0x4_5cb0a9dc);
    CubeRoot(K2, 7, 89, 0x4_76f988da);
  }

  lemma Row3()
    ensures AreCubeRoots(K3, P3)
  {
    CubeRoot(K3, 0, 97, 0x4_983e5152);
    CubeRoot(K3, 1, 101, 0x4_a831c66d);
    CubeRoot(K3, 2, 103, 0x4_b00327c8);
    CubeRoot(K3, 3, 107, 0x4_bf597fc7);
    CubeRoot(K3, 4, 109, 0x4_c6e00bf3);
    CubeRoot(K3, 5, 113, 0x4_d5a79147);
    CubeRoot(K3, 6, 127, 0x5_06ca6351);
    CubeRoot(K3, 7, 131, 0x5_14292967);
  }

  lemma Row4()
    ensures AreCubeRoots(K4, P4)
  {
    CubeRoot(K4, 0, 137, 0x5_27b70a85);
    CubeRoot(K4, 1, 139, 0x5_2e1b2138);
    CubeRoot(K4, 2, 149, 0x5_4d2c6dfc);
    CubeRoot(K4, 3, 151, 0x5_53380d13);
    CubeRoot(K4, 4, 157, 0x5_650a7354);
    CubeRoot(K4, 5, 163, 0x5_766a0abb);
    CubeRoot(K4, 6, 167, 0x5_81c2c92e);
    CubeRoot(K4, 7, 173, 0x5_92722c85);
  }

  lemma Row5()
    ensures AreCubeRoots(K5, P5)
  {
    CubeRoot(K5, 0, 179, 0x5_a2bfe8a1);
    CubeRoot(K5, 1, 181, 0x5_a81a664b);
    CubeRoot(K5, 2, 191, 0x5_c24b8b70);
    CubeRoot(K5, 3, 193, 0x5_c76c51a3);
    CubeRoot(K5, 4, 197, 0x5_d192e819);
    CubeRoot(K5, 5, 199, 0x5_d6990624);
    CubeRoot(K5, 6, 211, 0x5_f40e3585);
    CubeRoot(K5, 7, 223, 0x6_106aa070);
  }

  lemma Row6()
    ensures AreCubeRoots(K6, P6)
  {
    CubeRoot(K6, 0, 227, 0x6_19a4c116);
    CubeRoot(K6, 1, 229, 0x6_1e376c08);
    CubeRoot(K6, 2, 233, 0x6_2748774c);
    CubeRoot(K6, 3, 239, 0x6_34b0bcb5);
    CubeRoot(K6, 4, 241, 0x6_391c0cb3);
    CubeRoot(K6, 5, 251, 0x6_4ed8aa4a);
    CubeRoot(K6, 6, 257, 0x6_5b9cca4f);
    CubeRoot(K6, 7, 263, 0x6_682e6ff3);
  }

  lemma Row7()
    ensures AreCubeRoots(K7, P7)
  {
    CubeRoot(K7, 0, 269, 0x6_748f82ee);
    CubeRoot(K7, 1, 271, 0x6_78a5636f);
    CubeRoot(K7, 2, 277, 0x6_84c87814);
    CubeRoot(K7, 3, 281, 0x6_8cc70208);
    CubeRoot(K7, 4, 283, 0x6_90befffa);
    CubeRoot(K7, 5, 293, 0x6_a4506ceb);
    CubeRoot(K7, 6, 307, 0x6_bef9a3f7);
    CubeRoot(K7, 7, 311, 0x6_c67178f2);
  }

  /** The round constants are the cube roots of the first sixty-four primes. */
  lemma RoundConstantsAreCubeRoots()
    ensures |K| == 64 && AreCubeRoots(K, PRIMES)
  {
    hide AreCubeRoots;
    Row0();
    Row1();
    Row2();
    Row3();
    Row4();
    Row5();
    Row6();
    Row7();
    CubeRootsConcat(K0, P0, K1, P1);
    CubeRootsConcat(K0 + K1, P0 + P1, K2, P2);
    CubeRootsConcat(K0 + K1 + K2, P0 + P1 + P2, K3, P3);
    CubeRootsConcat(K0 + K1 + K2 + K3, P0 + P1 + P2 + P3, K4, P4);
    CubeRootsConcat(K0 + K1 + K2 + K3 + K4, P0 + P1 + P2 + P3 + P4, K5, P5);
    CubeRootsConcat(K0 + K1 + K2 + K3 + K4 + K5, P0 + P1 + P2 + P3 + P4 + P5, K6, P6);
    CubeRootsConcat(K0 + K1 + K2 + K3 + K4 + K5 + K6, P0 + P1 + P2 + P3 + P4 + P5 + P6, K7, P7);
  }
}
