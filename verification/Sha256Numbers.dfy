/** Where the numbers of SHA-256 come from: its constants are the first 32 bits of the
    fractional parts of the cube roots and square roots of the first primes. */
module Sha256Numbers {
  import opened Arithmetic
  import opened Sha256Spec

  ghost predicate IsPrime(n: nat)
  {
    n >= 2 && forall d :: 2 <= d < n ==> n % d != 0
  }

  ghost function PrimesBelow(n: nat): nat
  {
    if n == 0 then 0 else PrimesBelow(n - 1) + (if IsPrime(n - 1) then 1 else 0)
  }

  // The prime with `t` primes below it.
  ghost predicate IsNthPrime(t: nat, p: nat)
  {
    IsPrime(p) && PrimesBelow(p) == t
  }

  // Trial division by the primes up to 17 decides below 19 * 19.
  predicate PassesTrialDivision(n: nat)
  {
    && NotProperMultiple(n, 2) && NotProperMultiple(n, 3) && NotProperMultiple(n, 5) && NotProperMultiple(n, 7)
    && NotProperMultiple(n, 11) && NotProperMultiple(n, 13) && NotProperMultiple(n, 17)
  }

  predicate NotProperMultiple(n: nat, d: nat)
    requires d > 0
  {
    n % d != 0 || n == d
  }

  lemma ProductIsMultiple(d: nat, e: nat)
    requires e > 0
    ensures d * e % e == 0
  {
    QuotientIsUnique(d * e, e, d, 0);
  }

  lemma DivisorOfDivisor(n: nat, e: nat, d: nat)
    requires d > 0 && e > 0 && n % (e * d) == 0
    ensures n % d == 0
  {
    var k := n / (e * d);
    assert n == e * d * k == (e * k) * d;
    ProductIsMultiple(e * k, d);
  }

  lemma SmallDivisor(n: nat, d: nat)
    requires 2 <= d < 19 && d < n && n % d == 0
    ensures !PassesTrialDivision(n)
  {
    if d % 2 == 0 {
      DivisorOfDivisor(n, d / 2, 2);
      assert !NotProperMultiple(n, 2);
    } else if d % 3 == 0 {
      DivisorOfDivisor(n, d / 3, 3);
      assert !NotProperMultiple(n, 3);
    } else {
      assert d == 5 || d == 7 || d == 11 || d == 13 || d == 17;
      assert !NotProperMultiple(n, d);
    }
  }

  lemma OtherDivisor(n: nat, d: nat) returns (e: nat)
    requires 2 <= d < n < 19 * 19 && n % d == 0
    ensures 2 <= e < 19 && e < n && n % e == 0
  {
    if d < 19 {
      e := d;
    } else {
      e := n / d;
      assert n == d * e;
      CofactorIsSmall(n, d, e);
      ProductIsMultiple(d, e);
    }
  }

  lemma CofactorIsSmall(n: nat, d: nat, e: nat)
    requires n == d * e && 19 <= d < n < 19 * 19
    ensures 2 <= e < 19 && e < n
  {
    if e >= 19 {
      MulGrows(d, 18, e);
      assert false;
    }
  }

  lemma TrialDivision(n: nat)
    requires 2 <= n < 19 * 19
    ensures IsPrime(n) <==> PassesTrialDivision(n)
  {
    if d :| 2 <= d < n && n % d == 0 {
      var e := OtherDivisor(n, d);
      SmallDivisor(n, e);
    }
  }

  // Everything from `n` to before `q` fails trial division.
  predicate AllFail(n: nat, q: nat)
    decreases q - n
  {
    n >= q || (!PassesTrialDivision(n) && AllFail(n + 1, q))
  }

  lemma {:induction false} NoPrimesBetween(n: nat, q: nat)
    requires 2 <= n <= q < 19 * 19 && AllFail(n, q)
    ensures PrimesBelow(q) == PrimesBelow(n)
    decreases q - n
  {
    hide IsPrime, PassesTrialDivision;
    if n < q {
      NoPrimesBetween(n + 1, q);
      TrialDivision(n);
    }
  }

  // `p` is a prime and `q` the next one.
  predicate AreNeighbours(p: nat, q: nat)
  {
    2 <= p < q < 19 * 19 && PassesTrialDivision(q) && AllFail(p + 1, q)
  }

  lemma NextPrime(t: nat, p: nat, q: nat)
    requires IsNthPrime(t, p) && AreNeighbours(p, q)
    ensures IsNthPrime(t + 1, q)
  {
    hide IsPrime, PassesTrialDivision;
    NoPrimesBetween(p + 1, q);
    TrialDivision(q);
  }

  // Section 4.2.2: k / 2^32 is the fractional part of the cube root of p, cut to 32 bits.

  predicate EnclosesCubeRoot(i: nat, k: nat, p: nat)
  {
    var x := i * 0x1_0000_0000 + k;
    x * x * x <= p * 0x1_0000_0000_0000_0000_0000_0000 < (x + 1) * (x + 1) * (x + 1)
  }

  ghost predicate IsFractionOfCubeRoot(k: nat, p: nat)
  {
    exists i: nat :: EnclosesCubeRoot(i, k, p)
  }

  ghost predicate ComesFromCubeRoot(t: nat)
    requires t < ROUNDS
  {
    exists p: nat :: IsNthPrime(t, p) && IsFractionOfCubeRoot(RoundConstant(t) as nat, p)
  }

  lemma Enclosed(t: nat, p: nat, i: nat, k: nat)
    requires t < ROUNDS && IsNthPrime(t, p) && RoundConstant(t) as nat == k && EnclosesCubeRoot(i, k, p)
    ensures ComesFromCubeRoot(t)
  {
    hide IsNthPrime, RoundConstant, EnclosesCubeRoot;
  }

  lemma NeighboursFrom0()
    ensures AreNeighbours(2, 3) && AreNeighbours(3, 5) && AreNeighbours(5, 7) && AreNeighbours(7, 11)
  {
  }

  lemma NeighboursFrom4()
    ensures AreNeighbours(11, 13) && AreNeighbours(13, 17) && AreNeighbours(17, 19) && AreNeighbours(19, 23)
  {
  }

  lemma PrimesFrom0()
    requires IsNthPrime(0, 2)
    ensures IsNthPrime(1, 3) && IsNthPrime(2, 5) && IsNthPrime(3, 7) && IsNthPrime(4, 11)
    ensures IsNthPrime(5, 13) && IsNthPrime(6, 17) && IsNthPrime(7, 19) && IsNthPrime(8, 23)
  {
    hide IsNthPrime, AreNeighbours;
    NeighboursFrom0();
    NeighboursFrom4();
    NextPrime(0, 2, 3);
    NextPrime(1, 3, 5);
    NextPrime(2, 5, 7);
    NextPrime(3, 7, 11);
    NextPrime(4, 11, 13);
    NextPrime(5, 13, 17);
    NextPrime(6, 17, 19);
    NextPrime(7, 19, 23);
  }

  lemma ConstantsFrom0(t: nat)
    requires 0 <= t < 8 && IsNthPrime(0, 2)
    ensures ComesFromCubeRoot(t)
  {
    hide IsNthPrime, ComesFromCubeRoot;
    PrimesFrom0();
    match t {
      case 0 => Enclosed(0, 2, 1, 0x428a2f98);
      case 1 => Enclosed(1, 3, 1, 0x71374491);
      case 2 => Enclosed(2, 5, 1, 0xb5c0fbcf);
      case 3 => Enclosed(3, 7, 1, 0xe9b5dba5);
      case 4 => Enclosed(4, 11, 2, 0x3956c25b);
      case 5 => Enclosed(5, 13, 2, 0x59f111f1);
      case 6 => Enclosed(6, 17, 2, 0x923f82a4);
      case 7 => Enclosed(7, 19, 2, 0xab1c5ed5);
    }
  }

  lemma NeighboursFrom8()
    ensures AreNeighbours(23, 29) && AreNeighbours(29, 31) && AreNeighbours(31, 37) && AreNeighbours(37, 41)
  {
  }

  lemma NeighboursFrom12()
    ensures AreNeighbours(41, 43) && AreNeighbours(43, 47) && AreNeighbours(47, 53) && AreNeighbours(53, 59)
  {
  }

  lemma PrimesFrom8()
    requires IsNthPrime(8, 23)
    ensures IsNthPrime(9, 29) && IsNthPrime(10, 31) && IsNthPrime(11, 37) && IsNthPrime(12, 41)
    ensures IsNthPrime(13, 43) && IsNthPrime(14, 47) && IsNthPrime(15, 53) && IsNthPrime(16, 59)
  {
    hide IsNthPrime, AreNeighbours;
    NeighboursFrom8();
    NeighboursFrom12();
    NextPrime(8, 23, 29);
    NextPrime(9, 29, 31);
    NextPrime(10, 31, 37);
    NextPrime(11, 37, 41);
    NextPrime(12, 41, 43);
    NextPrime(13, 43, 47);
    NextPrime(14, 47, 53);
    NextPrime(15, 53, 59);
  }

  lemma ConstantsFrom8(t: nat)
    requires 8 <= t < 16 && IsNthPrime(8, 23)
    ensures ComesFromCubeRoot(t)
  {
    hide IsNthPrime, ComesFromCubeRoot;
    PrimesFrom8();
    match t {
      case 8 => Enclosed(8, 23, 2, 0xd807aa98);
      case 9 => Enclosed(9, 29, 3, 0x12835b01);
      case 10 => Enclosed(10, 31, 3, 0x243185be);
      case 11 => Enclosed(11, 37, 3, 0x550c7dc3);
      case 12 => Enclosed(12, 41, 3, 0x72be5d74);
      case 13 => Enclosed(13, 43, 3, 0x80deb1fe);
      case 14 => Enclosed(14, 47, 3, 0x9bdc06a7);
      case 15 => Enclosed(15, 53, 3, 0xc19bf174);
    }
  }

  lemma NeighboursFrom16()
    ensures AreNeighbours(59, 61) && AreNeighbours(61, 67) && AreNeighbours(67, 71) && AreNeighbours(71, 73)
  {
  }

  lemma NeighboursFrom20()
    ensures AreNeighbours(73, 79) && AreNeighbours(79, 83) && AreNeighbours(83, 89) && AreNeighbours(89, 97)
  {
  }

  lemma PrimesFrom16()
    requires IsNthPrime(16, 59)
    ensures IsNthPrime(17, 61) && IsNthPrime(18, 67) && IsNthPrime(19, 71) && IsNthPrime(20, 73)
    ensures IsNthPrime(21, 79) && IsNthPrime(22, 83) && IsNthPrime(23, 89) && IsNthPrime(24, 97)
  {
    hide IsNthPrime, AreNeighbours;
    NeighboursFrom16();
    NeighboursFrom20();
    NextPrime(16, 59, 61);
    NextPrime(17, 61, 67);
    NextPrime(18, 67, 71);
    NextPrime(19, 71, 73);
    NextPrime(20, 73, 79);
    NextPrime(21, 79, 83);
    NextPrime(22, 83, 89);
    NextPrime(23, 89, 97);
  }

  lemma ConstantsFrom16(t: nat)
    requires 16 <= t < 24 && IsNthPrime(16, 59)
    ensures ComesFromCubeRoot(t)
  {
    hide IsNthPrime, ComesFromCubeRoot;
    PrimesFrom16();
    match t {
      case 16 => Enclosed(16, 59, 3, 0xe49b69c1);
      case 17 => Enclosed(17, 61, 3, 0xefbe4786);
      case 18 => Enclosed(18, 67, 4, 0x0fc19dc6);
      case 19 => Enclosed(19, 71, 4, 0x240ca1cc);
      case 20 => Enclosed(20, 73, 4, 0x2de92c6f);
      case 21 => Enclosed(21, 79, 4, 0x4a7484aa);
      case 22 => Enclosed(22, 83, 4, 0x5cb0a9dc);
      case 23 => Enclosed(23, 89, 4, 0x76f988da);
    }
  }

  lemma NeighboursFrom24()
    ensures AreNeighbours(97, 101) && AreNeighbours(101, 103) && AreNeighbours(103, 107) && AreNeighbours(107, 109)
  {
  }

  lemma NeighboursFrom28()
    ensures AreNeighbours(109, 113) && AreNeighbours(113, 127) && AreNeighbours(127, 131) && AreNeighbours(131, 137)
  {
  }

  lemma PrimesFrom24()
    requires IsNthPrime(24, 97)
    ensures IsNthPrime(25, 101) && IsNthPrime(26, 103) && IsNthPrime(27, 107) && IsNthPrime(28, 109)
    ensures IsNthPrime(29, 113) && IsNthPrime(30, 127) && IsNthPrime(31, 131) && IsNthPrime(32, 137)
  {
    hide IsNthPrime, AreNeighbours;
    NeighboursFrom24();
    NeighboursFrom28();
    NextPrime(24, 97, 101);
    NextPrime(25, 101, 103);
    NextPrime(26, 103, 107);
    NextPrime(27, 107, 109);
    NextPrime(28, 109, 113);
    NextPrime(29, 113, 127);
    NextPrime(30, 127, 131);
    NextPrime(31, 131, 137);
  }

  lemma ConstantsFrom24(t: nat)
    requires 24 <= t < 32 && IsNthPrime(24, 97)
    ensures ComesFromCubeRoot(t)
  {
    hide IsNthPrime, ComesFromCubeRoot;
    PrimesFrom24();
    match t {
      case 24 => Enclosed(24, 97, 4, 0x983e5152);
      case 25 => Enclosed(25, 101, 4, 0xa831c66d);
      case 26 => Enclosed(26, 103, 4, 0xb00327c8);
      case 27 => Enclosed(27, 107, 4, 0xbf597fc7);
      case 28 => Enclosed(28, 109, 4, 0xc6e00bf3);
      case 29 => Enclosed(29, 113, 4, 0xd5a79147);
      case 30 => Enclosed(30, 127, 5, 0x06ca6351);
      case 31 => Enclosed(31, 131, 5, 0x14292967);
    }
  }

  lemma NeighboursFrom32()
    ensures AreNeighbours(137, 139) && AreNeighbours(139, 149) && AreNeighbours(149, 151) && AreNeighbours(151, 157)
  {
  }

  lemma NeighboursFrom36()
    ensures AreNeighbours(157, 163) && AreNeighbours(163, 167) && AreNeighbours(167, 173) && AreNeighbours(173, 179)
  {
  }

  lemma PrimesFrom32()
    requires IsNthPrime(32, 137)
    ensures IsNthPrime(33, 139) && IsNthPrime(34, 149) && IsNthPrime(35, 151) && IsNthPrime(36, 157)
    ensures IsNthPrime(37, 163) && IsNthPrime(38, 167) && IsNthPrime(39, 173) && IsNthPrime(40, 179)
  {
    hide IsNthPrime, AreNeighbours;
    NeighboursFrom32();
    NeighboursFrom36();
    NextPrime(32, 137, 139);
    NextPrime(33, 139, 149);
    NextPrime(34, 149, 151);
    NextPrime(35, 151, 157);
    NextPrime(36, 157, 163);
    NextPrime(37, 163, 167);
    NextPrime(38, 167, 173);
    NextPrime(39, 173, 179);
  }

  lemma ConstantsFrom32(t: nat)
    requires 32 <= t < 40 && IsNthPrime(32, 137)
    ensures ComesFromCubeRoot(t)
  {
    hide IsNthPrime, ComesFromCubeRoot;
    PrimesFrom32();
    match t {
      case 32 => Enclosed(32, 137, 5, 0x27b70a85);
      case 33 => Enclosed(33, 139, 5, 0x2e1b2138);
      case 34 => Enclosed(34, 149, 5, 0x4d2c6dfc);
      case 35 => Enclosed(35, 151, 5, 0x53380d13);
      case 36 => Enclosed(36, 157, 5, 0x650a7354);
      case 37 => Enclosed(37, 163, 5, 0x766a0abb);
      case 38 => Enclosed(38, 167, 5, 0x81c2c92e);
      case 39 => Enclosed(39, 173, 5, 0x92722c85);
    }
  }

  lemma NeighboursFrom40()
    ensures AreNeighbours(179, 181) && AreNeighbours(181, 191) && AreNeighbours(191, 193) && AreNeighbours(193, 197)
  {
  }

  lemma NeighboursFrom44()
    ensures AreNeighbours(197, 199) && AreNeighbours(199, 211) && AreNeighbours(211, 223) && AreNeighbours(223, 227)
  {
  }

  lemma PrimesFrom40()
    requires IsNthPrime(40, 179)
    ensures IsNthPrime(41, 181) && IsNthPrime(42, 191) && IsNthPrime(43, 193) && IsNthPrime(44, 197)
    ensures IsNthPrime(45, 199) && IsNthPrime(46, 211) && IsNthPrime(47, 223) && IsNthPrime(48, 227)
  {
    hide IsNthPrime, AreNeighbours;
    NeighboursFrom40();
    NeighboursFrom44();
    NextPrime(40, 179, 181);
    NextPrime(41, 181, 191);
    NextPrime(42, 191, 193);
    NextPrime(43, 193, 197);
    NextPrime(44, 197, 199);
    NextPrime(45, 199, 211);
    NextPrime(46, 211, 223);
    NextPrime(47, 223, 227);
  }

  lemma ConstantsFrom40(t: nat)
    requires 40 <= t < 48 && IsNthPrime(40, 179)
    ensures ComesFromCubeRoot(t)
  {
    hide IsNthPrime, ComesFromCubeRoot;
    PrimesFrom40();
    match t {
      case 40 => Enclosed(40, 179, 5, 0xa2bfe8a1);
      case 41 => Enclosed(41, 181, 5, 0xa81a664b);
      case 42 => Enclosed(42, 191, 5, 0xc24b8b70);
      case 43 => Enclosed(43, 193, 5, 0xc76c51a3);
      case 44 => Enclosed(44, 197, 5, 0xd192e819);
      case 45 => Enclosed(45, 199, 5, 0xd6990624);
      case 46 => Enclosed(46, 211, 5, 0xf40e3585);
      case 47 => Enclosed(47, 223, 6, 0x106aa070);
    }
  }

  lemma NeighboursFrom48()
    ensures AreNeighbours(227, 229) && AreNeighbours(229, 233) && AreNeighbours(233, 239) && AreNeighbours(239, 241)
  {
  }

  lemma NeighboursFrom52()
    ensures AreNeighbours(241, 251) && AreNeighbours(251, 257) && AreNeighbours(257, 263) && AreNeighbours(263, 269)
  {
  }

  lemma PrimesFrom48()
    requires IsNthPrime(48, 227)
    ensures IsNthPrime(49, 229) && IsNthPrime(50, 233) && IsNthPrime(51, 239) && IsNthPrime(52, 241)
    ensures IsNthPrime(53, 251) && IsNthPrime(54, 257) && IsNthPrime(55, 263) && IsNthPrime(56, 269)
  {
    hide IsNthPrime, AreNeighbours;
    NeighboursFrom48();
    NeighboursFrom52();
    NextPrime(48, 227, 229);
    NextPrime(49, 229, 233);
    NextPrime(50, 233, 239);
    NextPrime(51, 239, 241);
    NextPrime(52, 241, 251);
    NextPrime(53, 251, 257);
    NextPrime(54, 257, 263);
    NextPrime(55, 263, 269);
  }

  lemma ConstantsFrom48(t: nat)
    requires 48 <= t < 56 && IsNthPrime(48, 227)
    ensures ComesFromCubeRoot(t)
  {
    hide IsNthPrime, ComesFromCubeRoot;
    PrimesFrom48();
    match t {
      case 48 => Enclosed(48, 227, 6, 0x19a4c116);
      case 49 => Enclosed(49, 229, 6, 0x1e376c08);
      case 50 => Enclosed(50, 233, 6, 0x2748774c);
      case 51 => Enclosed(51, 239, 6, 0x34b0bcb5);
      case 52 => Enclosed(52, 241, 6, 0x391c0cb3);
      case 53 => Enclosed(53, 251, 6, 0x4ed8aa4a);
      case 54 => Enclosed(54, 257, 6, 0x5b9cca4f);
      case 55 => Enclosed(55, 263, 6, 0x682e6ff3);
    }
  }

  lemma NeighboursFrom56()
    ensures AreNeighbours(269, 271) && AreNeighbours(271, 277) && AreNeighbours(277, 281) && AreNeighbours(281, 283)
  {
  }

  lemma NeighboursFrom60()
    ensures AreNeighbours(283, 293) && AreNeighbours(293, 307) && AreNeighbours(307, 311) && AreNeighbours(311, 313)
  {
  }

  lemma PrimesFrom56()
    requires IsNthPrime(56, 269)
    ensures IsNthPrime(57, 271) && IsNthPrime(58, 277) && IsNthPrime(59, 281) && IsNthPrime(60, 283)
    ensures IsNthPrime(61, 293) && IsNthPrime(62, 307) && IsNthPrime(63, 311) && IsNthPrime(64, 313)
  {
    hide IsNthPrime, AreNeighbours;
    NeighboursFrom56();
    NeighboursFrom60();
    NextPrime(56, 269, 271);
    NextPrime(57, 271, 277);
    NextPrime(58, 277, 281);
    NextPrime(59, 281, 283);
    NextPrime(60, 283, 293);
    NextPrime(61, 293, 307);
    NextPrime(62, 307, 311);
    NextPrime(63, 311, 313);
  }

  lemma ConstantsFrom56(t: nat)
    requires 56 <= t < 64 && IsNthPrime(56, 269)
    ensures ComesFromCubeRoot(t)
  {
    hide IsNthPrime, ComesFromCubeRoot;
    PrimesFrom56();
    match t {
      case 56 => Enclosed(56, 269, 6, 0x748f82ee);
      case 57 => Enclosed(57, 271, 6, 0x78a5636f);
      case 58 => Enclosed(58, 277, 6, 0x84c87814);
      case 59 => Enclosed(59, 281, 6, 0x8cc70208);
      case 60 => Enclosed(60, 283, 6, 0x90befffa);
      case 61 => Enclosed(61, 293, 6, 0xa4506ceb);
      case 62 => Enclosed(62, 307, 6, 0xbef9a3f7);
      case 63 => Enclosed(63, 311, 6, 0xc67178f2);
    }
  }

  lemma FirstPrime()
    ensures IsNthPrime(0, 2)
  {
    assert PrimesBelow(1) == PrimesBelow(0) == 0;
  }

  lemma RoundConstantsComeFromCubeRoots(t: nat)
    requires t < ROUNDS
    ensures exists p: nat :: IsNthPrime(t, p) && IsFractionOfCubeRoot(RoundConstant(t) as nat, p)
  {
    hide IsNthPrime, IsFractionOfCubeRoot, RoundConstant;
    FirstPrime();
    PrimesFrom0();
    PrimesFrom8();
    PrimesFrom16();
    PrimesFrom24();
    PrimesFrom32();
    PrimesFrom40();
    PrimesFrom48();
    PrimesFrom56();
    if t < 8 {
      ConstantsFrom0(t);
    } else if t < 16 {
      ConstantsFrom8(t);
    } else if t < 24 {
      ConstantsFrom16(t);
    } else if t < 32 {
      ConstantsFrom24(t);
    } else if t < 40 {
      ConstantsFrom32(t);
    } else if t < 48 {
      ConstantsFrom40(t);
    } else if t < 56 {
      ConstantsFrom48(t);
    } else if t < 64 {
      ConstantsFrom56(t);
    }
    assert ComesFromCubeRoot(t);
  }

  // Section 5.3.3: the same with the square roots of the first eight primes.

  predicate EnclosesSquareRoot(i: nat, k: nat, p: nat)
  {
    var x := i * 0x1_0000_0000 + k;
    x * x <= p * 0x1_0000_0000_0000_0000 < (x + 1) * (x + 1)
  }

  ghost predicate IsFractionOfSquareRoot(k: nat, p: nat)
  {
    exists i: nat :: EnclosesSquareRoot(i, k, p)
  }

  ghost predicate ComesFromSquareRoot(i: nat)
    requires i < 8
  {
    exists p: nat :: IsNthPrime(i, p) && IsFractionOfSquareRoot(WordIn(IV, i) as nat, p)
  }

  lemma EnclosedSquare(i: nat, p: nat, r: nat, k: nat)
    requires i < 8 && IsNthPrime(i, p) && WordIn(IV, i) as nat == k && EnclosesSquareRoot(r, k, p)
    ensures ComesFromSquareRoot(i)
  {
    hide IsNthPrime, WordIn, EnclosesSquareRoot;
  }

  lemma InitialWordsComeFromSquareRoots(i: nat)
    requires i < 8
    ensures exists p: nat :: IsNthPrime(i, p) && IsFractionOfSquareRoot(WordIn(IV, i) as nat, p)
  {
    hide IsNthPrime, ComesFromSquareRoot;
    FirstPrime();
    PrimesFrom0();
    match i {
      case 0 => EnclosedSquare(0, 2, 1, 0x6a09e667);
      case 1 => EnclosedSquare(1, 3, 1, 0xbb67ae85);
      case 2 => EnclosedSquare(2, 5, 2, 0x3c6ef372);
      case 3 => EnclosedSquare(3, 7, 2, 0xa54ff53a);
      case 4 => EnclosedSquare(4, 11, 3, 0x510e527f);
      case 5 => EnclosedSquare(5, 13, 3, 0x9b05688c);
      case 6 => EnclosedSquare(6, 17, 4, 0x1f83d9ab);
      case 7 => EnclosedSquare(7, 19, 4, 0x5be0cd19);
    }
    FromSquareRoot(i);
  }

  lemma FromSquareRoot(i: nat)
    requires i < 8 && ComesFromSquareRoot(i)
    ensures exists p: nat :: IsNthPrime(i, p) && IsFractionOfSquareRoot(WordIn(IV, i) as nat, p)
  {
  }
}
