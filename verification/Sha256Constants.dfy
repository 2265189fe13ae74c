/** Where the constants of SHA-256 come from: sections 4.2.2 and 5.3.3 of FIPS 180-4. */
module Sha256Constants {
  import opened Primes
  import opened Sha256

  // ---------------------------------------------------------------- roots of primes

  const TWO32 := 0x1_0000_0000

  function Square(x: nat): nat { x * x }

  function Cube(x: nat): nat { x * x * x }

  /** `k` is the first 32 bits of the fractional part of the cube root of `p`, and `n` its integer part. */
  ghost predicate CubeRootBits(k: nat, p: nat) {
    exists n: nat :: CubeFloor(n, p) && CubeBetween(n, k, p)
  }

  predicate CubeFloor(n: nat, p: nat) {
    Cube(n) <= p < Cube(n + 1)
  }

  predicate CubeBetween(n: nat, k: nat, p: nat) {
    Cube(n * TWO32 + k) <= p * TWO32 * TWO32 * TWO32 < Cube(n * TWO32 + k + 1)
  }

  /** And of the square root. */
  ghost predicate SquareRootBits(k: nat, p: nat) {
    exists n: nat :: SquareFloor(n, p) && SquareBetween(n, k, p)
  }

  predicate SquareFloor(n: nat, p: nat) {
    Square(n) <= p < Square(n + 1)
  }

  predicate SquareBetween(n: nat, k: nat, p: nat) {
    Square(n * TWO32 + k) <= p * TWO32 * TWO32 < Square(n * TWO32 + k + 1)
  }

  ghost predicate FromCubeRoot(t: nat, k: word) {
    exists p: nat :: NthPrime(t, p) && CubeRootBits(k as nat, p)
  }

  ghost predicate FromSquareRoot(t: nat, k: word) {
    exists p: nat :: NthPrime(t, p) && SquareRootBits(k as nat, p)
  }

  /** Constant number `t`. */
  ghost predicate RoundConstant(t: nat)
    requires t < 64
  {
    FromCubeRoot(t, K[t])
  }

  lemma CubeRoot(t: nat, p: nat, n: nat, k: word)
    requires NthPrime(t, p) && CubeFloor(n, p) && CubeBetween(n, k as nat, p)
    ensures FromCubeRoot(t, k)
  {
    hide NthPrime, CubeFloor, CubeBetween;
    assert CubeRootBits(k as nat, p);
  }

  lemma SquareRoot(t: nat, p: nat, n: nat, k: word)
    requires NthPrime(t, p) && SquareFloor(n, p) && SquareBetween(n, k as nat, p)
    ensures FromSquareRoot(t, k)
  {
    hide NthPrime, SquareFloor, SquareBetween;
    assert SquareRootBits(k as nat, p);
  }

  // ---------------------------------------------------------------- the primes, one after the other

  lemma PrimesToEight()
    ensures NthPrime(0, 2) && NthPrime(1, 3) && NthPrime(2, 5) && NthPrime(3, 7) && NthPrime(4, 11) && NthPrime(5, 13)
    ensures NthPrime(6, 17) && NthPrime(7, 19)
  {
    hide NthPrime;
    FirstPrime();
    NextPrime(0, 2, 3);
    NextPrime(1, 3, 5);
    NextPrime(2, 5, 7);
    NextPrime(3, 7, 11);
    NextPrime(4, 11, 13);
    NextPrime(5, 13, 17);
    NextPrime(6, 17, 19);
  }

  lemma PrimesToSixteen()
    ensures NthPrime(8, 23) && NthPrime(9, 29) && NthPrime(10, 31) && NthPrime(11, 37) && NthPrime(12, 41)
    ensures NthPrime(13, 43) && NthPrime(14, 47) && NthPrime(15, 53)
  {
    hide NthPrime;
    PrimesToEight();
    NextPrime(7, 19, 23);
    NextPrime(8, 23, 29);
    NextPrime(9, 29, 31);
    NextPrime(10, 31, 37);
    NextPrime(11, 37, 41);
    NextPrime(12, 41, 43);
    NextPrime(13, 43, 47);
    NextPrime(14, 47, 53);
  }

  lemma PrimesToTwentyFour()
    ensures NthPrime(16, 59) && NthPrime(17, 61) && NthPrime(18, 67) && NthPrime(19, 71) && NthPrime(20, 73)
    ensures NthPrime(21, 79) && NthPrime(22, 83) && NthPrime(23, 89)
  {
    hide NthPrime;
    PrimesToSixteen();
    NextPrime(15, 53, 59);
    NextPrime(16, 59, 61);
    NextPrime(17, 61, 67);
    NextPrime(18, 67, 71);
    NextPrime(19, 71, 73);
    NextPrime(20, 73, 79);
    NextPrime(21, 79, 83);
    NextPrime(22, 83, 89);
  }

  lemma PrimesToThirtyTwo()
    ensures NthPrime(24, 97) && NthPrime(25, 101) && NthPrime(26, 103) && NthPrime(27, 107) && NthPrime(28, 109)
    ensures NthPrime(29, 113) && NthPrime(30, 127) && NthPrime(31, 131)
  {
    hide NthPrime;
    PrimesToTwentyFour();
    NextPrime(23, 89, 97);
    NextPrime(24, 97, 101);
    NextPrime(25, 101, 103);
    NextPrime(26, 103, 107);
    NextPrime(27, 107, 109);
    NextPrime(28, 109, 113);
    NextPrime(29, 113, 127);
    NextPrime(30, 127, 131);
  }

  lemma PrimesToForty()
    ensures NthPrime(32, 137) && NthPrime(33, 139) && NthPrime(34, 149) && NthPrime(35, 151) && NthPrime(36, 157)
    ensures NthPrime(37, 163) && NthPrime(38, 167) && NthPrime(39, 173)
  {
    hide NthPrime;
    PrimesToThirtyTwo();
    NextPrime(31, 131, 137);
    NextPrime(32, 137, 139);
    NextPrime(33, 139, 149);
    NextPrime(34, 149, 151);
    NextPrime(35, 151, 157);
    NextPrime(36, 157, 163);
    NextPrime(37, 163, 167);
    NextPrime(38, 167, 173);
  }

  lemma PrimesToFortyEight()
    ensures NthPrime(40, 179) && NthPrime(41, 181) && NthPrime(42, 191) && NthPrime(43, 193) && NthPrime(44, 197)
    ensures NthPrime(45, 199) && NthPrime(46, 211) && NthPrime(47, 223)
  {
    hide NthPrime;
    PrimesToForty();
    NextPrime(39, 173, 179);
    NextPrime(40, 179, 181);
    NextPrime(41, 181, 191);
    NextPrime(42, 191, 193);
    NextPrime(43, 193, 197);
    NextPrime(44, 197, 199);
    NextPrime(45, 199, 211);
    NextPrime(46, 211, 223);
  }

  lemma PrimesToFiftySix()
    ensures NthPrime(48, 227) && NthPrime(49, 229) && NthPrime(50, 233) && NthPrime(51, 239) && NthPrime(52, 241)
    ensures NthPrime(53, 251) && NthPrime(54, 257) && NthPrime(55, 263)
  {
    hide NthPrime;
    PrimesToFortyEight();
    NextPrime(47, 223, 227);
    NextPrime(48, 227, 229);
    NextPrime(49, 229, 233);
    NextPrime(50, 233, 239);
    NextPrime(51, 239, 241);
    NextPrime(52, 241, 251);
    NextPrime(53, 251, 257);
    NextPrime(54, 257, 263);
  }

  lemma PrimesToSixtyFour()
    ensures NthPrime(56, 269) && NthPrime(57, 271) && NthPrime(58, 277) && NthPrime(59, 281) && NthPrime(60, 283)
    ensures NthPrime(61, 293) && NthPrime(62, 307) && NthPrime(63, 311)
  {
    hide NthPrime;
    PrimesToFiftySix();
    NextPrime(55, 263, 269);
    NextPrime(56, 269, 271);
    NextPrime(57, 271, 277);
    NextPrime(58, 277, 281);
    NextPrime(59, 281, 283);
    NextPrime(60, 283, 293);
    NextPrime(61, 293, 307);
    NextPrime(62, 307, 311);
  }

  // ---------------------------------------------------------------- the constants

  lemma ConstantsFrom0(t: nat)
    requires t < 4
    ensures RoundConstant(t)
  {
    hide NthPrime, FromCubeRoot;
    PrimesToEight();
    if t == 0 {
      CubeRoot(0, 2, 1, K[0]);
    } else if t == 1 {
      CubeRoot(1, 3, 1, K[1]);
    } else if t == 2 {
      CubeRoot(2, 5, 1, K[2]);
    } else {
      CubeRoot(3, 7, 1, K[3]);
    }
  }

  lemma ConstantsFrom4(t: nat)
    requires 4 <= t < 8
    ensures RoundConstant(t)
  {
    hide NthPrime, FromCubeRoot;
    PrimesToEight();
    if t == 4 {
      CubeRoot(4, 11, 2, K[4]);
    } else if t == 5 {
      CubeRoot(5, 13, 2, K[5]);
    } else if t == 6 {
      CubeRoot(6, 17, 2, K[6]);
    } else {
      CubeRoot(7, 19, 2, K[7]);
    }
  }

  lemma ConstantsFrom8(t: nat)
    requires 8 <= t < 12
    ensures RoundConstant(t)
  {
    hide NthPrime, FromCubeRoot;
    PrimesToSixteen();
    if t == 8 {
      CubeRoot(8, 23, 2, K[8]);
    } else if t == 9 {
      CubeRoot(9, 29, 3, K[9]);
    } else if t == 10 {
      CubeRoot(10, 31, 3, K[10]);
    } else {
      CubeRoot(11, 37, 3, K[11]);
    }
  }

  lemma ConstantsFrom12(t: nat)
    requires 12 <= t < 16
    ensures RoundConstant(t)
  {
    hide NthPrime, FromCubeRoot;
    PrimesToSixteen();
    if t == 12 {
      CubeRoot(12, 41, 3, K[12]);
    } else if t == 13 {
      CubeRoot(13, 43, 3, K[13]);
    } else if t == 14 {
      CubeRoot(14, 47, 3, K[14]);
    } else {
      CubeRoot(15, 53, 3, K[15]);
    }
  }

  lemma ConstantsFrom16(t: nat)
    requires 16 <= t < 20
    ensures RoundConstant(t)
  {
    hide NthPrime, FromCubeRoot;
    PrimesToTwentyFour();
    if t == 16 {
      CubeRoot(16, 59, 3, K[16]);
    } else if t == 17 {
      CubeRoot(17, 61, 3, K[17]);
    } else if t == 18 {
      CubeRoot(18, 67, 4, K[18]);
    } else {
      CubeRoot(19, 71, 4, K[19]);
    }
  }

  lemma ConstantsFrom20(t: nat)
    requires 20 <= t < 24
    ensures RoundConstant(t)
  {
    hide NthPrime, FromCubeRoot;
    PrimesToTwentyFour();
    if t == 20 {
      CubeRoot(20, 73, 4, K[20]);
    } else if t == 21 {
      CubeRoot(21, 79, 4, K[21]);
    } else if t == 22 {
      CubeRoot(22, 83, 4, K[22]);
    } else {
      CubeRoot(23, 89, 4, K[23]);
    }
  }

  lemma ConstantsFrom24(t: nat)
    requires 24 <= t < 28
    ensures RoundConstant(t)
  {
    hide NthPrime, FromCubeRoot;
    PrimesToThirtyTwo();
    if t == 24 {
      CubeRoot(24, 97, 4, K[24]);
    } else if t == 25 {
      CubeRoot(25, 101, 4, K[25]);
    } else if t == 26 {
      CubeRoot(26, 103, 4, K[26]);
    } else {
      CubeRoot(27, 107, 4, K[27]);
    }
  }

  lemma ConstantsFrom28(t: nat)
    requires 28 <= t < 32
    ensures RoundConstant(t)
  {
    hide NthPrime, FromCubeRoot;
    PrimesToThirtyTwo();
    if t == 28 {
      CubeRoot(28, 109, 4, K[28]);
    } else if t == 29 {
      CubeRoot(29, 113, 4, K[29]);
    } else if t == 30 {
      CubeRoot(30, 127, 5, K[30]);
    } else {
      CubeRoot(31, 131, 5, K[31]);
    }
  }

  lemma ConstantsFrom32(t: nat)
    requires 32 <= t < 36
    ensures RoundConstant(t)
  {
    hide NthPrime, FromCubeRoot;
    PrimesToForty();
    if t == 32 {
      CubeRoot(32, 137, 5, K[32]);
    } else if t == 33 {
      CubeRoot(33, 139, 5, K[33]);
    } else if t == 34 {
      CubeRoot(34, 149, 5, K[34]);
    } else {
      CubeRoot(35, 151, 5, K[35]);
    }
  }

  lemma ConstantsFrom36(t: nat)
    requires 36 <= t < 40
    ensures RoundConstant(t)
  {
    hide NthPrime, FromCubeRoot;
    PrimesToForty();
    if t == 36 {
      CubeRoot(36, 157, 5, K[36]);
    } else if t == 37 {
      CubeRoot(37, 163, 5, K[37]);
    } else if t == 38 {
      CubeRoot(38, 167, 5, K[38]);
    } else {
      CubeRoot(39, 173, 5, K[39]);
    }
  }

  lemma ConstantsFrom40(t: nat)
    requires 40 <= t < 44
    ensures RoundConstant(t)
  {
    hide NthPrime, FromCubeRoot;
    PrimesToFortyEight();
    if t == 40 {
      CubeRoot(40, 179, 5, K[40]);
    } else if t == 41 {
      CubeRoot(41, 181, 5, K[41]);
    } else if t == 42 {
      CubeRoot(42, 191, 5, K[42]);
    } else {
      CubeRoot(43, 193, 5, K[43]);
    }
  }

  lemma ConstantsFrom44(t: nat)
    requires 44 <= t < 48
    ensures RoundConstant(t)
  {
    hide NthPrime, FromCubeRoot;
    PrimesToFortyEight();
    if t == 44 {
      CubeRoot(44, 197, 5, K[44]);
    } else if t == 45 {
      CubeRoot(45, 199, 5, K[45]);
    } else if t == 46 {
      CubeRoot(46, 211, 5, K[46]);
    } else {
      CubeRoot(47, 223, 6, K[47]);
    }
  }

  lemma ConstantsFrom48(t: nat)
    requires 48 <= t < 52
    ensures RoundConstant(t)
  {
    hide NthPrime, FromCubeRoot;
    PrimesToFiftySix();
    if t == 48 {
      CubeRoot(48, 227, 6, K[48]);
    } else if t == 49 {
      CubeRoot(49, 229, 6, K[49]);
    } else if t == 50 {
      CubeRoot(50, 233, 6, K[50]);
    } else {
      CubeRoot(51, 239, 6, K[51]);
    }
  }

  lemma ConstantsFrom52(t: nat)
    requires 52 <= t < 56
    ensures RoundConstant(t)
  {
    hide NthPrime, FromCubeRoot;
    PrimesToFiftySix();
    if t == 52 {
      CubeRoot(52, 241, 6, K[52]);
    } else if t == 53 {
      CubeRoot(53, 251, 6, K[53]);
    } else if t == 54 {
      CubeRoot(54, 257, 6, K[54]);
    } else {
      CubeRoot(55, 263, 6, K[55]);
    }
  }

  lemma ConstantsFrom56(t: nat)
    requires 56 <= t < 60
    ensures RoundConstant(t)
  {
    hide NthPrime, FromCubeRoot;
    PrimesToSixtyFour();
    if t == 56 {
      CubeRoot(56, 269, 6, K[56]);
    } else if t == 57 {
      CubeRoot(57, 271, 6, K[57]);
    } else if t == 58 {
      CubeRoot(58, 277, 6, K[58]);
    } else {
      CubeRoot(59, 281, 6, K[59]);
    }
  }

  lemma ConstantsFrom60(t: nat)
    requires 60 <= t < 64
    ensures RoundConstant(t)
  {
    hide NthPrime, FromCubeRoot;
    PrimesToSixtyFour();
    if t == 60 {
      CubeRoot(60, 283, 6, K[60]);
    } else if t == 61 {
      CubeRoot(61, 293, 6, K[61]);
    } else if t == 62 {
      CubeRoot(62, 307, 6, K[62]);
    } else {
      CubeRoot(63, 311, 6, K[63]);
    }
  }

  /** Section 4.2.2: the 64 round constants are the first 32 bits of the fractional parts of the cube roots of the
      first 64 primes. */
  lemma RoundConstants(t: nat)
    requires t < 64
    ensures FromCubeRoot(t, K[t])
  {
    hide FromCubeRoot;
    if t < 4 {
      ConstantsFrom0(t);
    } else if t < 8 {
      ConstantsFrom4(t);
    } else if t < 12 {
      ConstantsFrom8(t);
    } else if t < 16 {
      ConstantsFrom12(t);
    } else if t < 20 {
      ConstantsFrom16(t);
    } else if t < 24 {
      ConstantsFrom20(t);
    } else if t < 28 {
      ConstantsFrom24(t);
    } else if t < 32 {
      ConstantsFrom28(t);
    } else if t < 36 {
      ConstantsFrom32(t);
    } else if t < 40 {
      ConstantsFrom36(t);
    } else if t < 44 {
      ConstantsFrom40(t);
    } else if t < 48 {
      ConstantsFrom44(t);
    } else if t < 52 {
      ConstantsFrom48(t);
    } else if t < 56 {
      ConstantsFrom52(t);
    } else if t < 60 {
      ConstantsFrom56(t);
    } else {
      ConstantsFrom60(t);
    }
  }

  /** Section 5.3.3: the initial hash value is the first 32 bits of the fractional parts of the square roots of the
      first eight primes. */
  lemma InitialValue()
    ensures FromSquareRoot(0, INITIAL.a) && FromSquareRoot(1, INITIAL.b) && FromSquareRoot(2, INITIAL.c)
    ensures FromSquareRoot(3, INITIAL.d) && FromSquareRoot(4, INITIAL.e) && FromSquareRoot(5, INITIAL.f)
    ensures FromSquareRoot(6, INITIAL.g) && FromSquareRoot(7, INITIAL.h)
  {
    hide NthPrime, FromSquareRoot;
    PrimesToEight();
    SquareRoot(0, 2, 1, INITIAL.a);
    SquareRoot(1, 3, 1, INITIAL.b);
    SquareRoot(2, 5, 2, INITIAL.c);
    SquareRoot(3, 7, 2, INITIAL.d);
    SquareRoot(4, 11, 3, INITIAL.e);
    SquareRoot(5, 13, 3, INITIAL.f);
    SquareRoot(6, 17, 4, INITIAL.g);
    SquareRoot(7, 19, 4, INITIAL.h);
  }
}
