/** A known answer: the digest of "abc", as the examples to FIPS 180-4 give it, with every
    word of its schedule and every round on the way. */
module Sha256KnownAnswer {
  import opened Sha256Spec

  const ABC: seq<Byte> := [0x61, 0x62, 0x63]

  // The message schedule.
  const SCHEDULE: seq<seq<Word>> := [
    [0x61626380, 0x00000000, 0x00000000, 0x00000000, 0x00000000, 0x00000000, 0x00000000, 0x00000000],
    [0x00000000, 0x00000000, 0x00000000, 0x00000000, 0x00000000, 0x00000000, 0x00000000, 0x00000018],
    [0x61626380, 0x000f0000, 0x7da86405, 0x600003c6, 0x3e9d7b78, 0x0183fc00, 0x12dcbfdb, 0xe2e2c38e],
    [0xc8215c1a, 0xb73679a2, 0xe5bc3909, 0x32663c5b, 0x9d209d67, 0xec8726cb, 0x702138a4, 0xd3b7973b],
    [0x93f5997f, 0x3b68ba73, 0xaff4ffc1, 0xf10a5c62, 0x0a8b3996, 0x72af830a, 0x9409e33e, 0x24641522],
    [0x9f47bf94, 0xf0a64f5a, 0x3e246a79, 0x27333ba3, 0x0c4763f2, 0x840abf27, 0x7a290d5d, 0x065c43da],
    [0xfb3e89cb, 0xcc7617db, 0xb9e66c34, 0xa9993667, 0x84badedd, 0xc21462bc, 0x1487472c, 0xb20f7a99],
    [0xef57b9cd, 0xebe6b238, 0x9fe3095e, 0x78bc8d4b, 0xa43fcf15, 0x668b2ff8, 0xeeaba2cc, 0x12b1edeb]]

  function V(t: nat): Word
    requires t < 64
  {
    SCHEDULE[t / 8][t % 8]
  }

  predicate WordFits(t: nat)
    requires 16 <= t < 64
  {
    V(t) == NextWord(V(t - 16), V(t - 15), V(t - 7), V(t - 2))
  }

  lemma OneWord(t: nat, w16: Word, w15: Word, w7: Word, w2: Word)
    requires 16 <= t < 64
    requires V(t - 16) == w16 && V(t - 15) == w15 && V(t - 7) == w7 && V(t - 2) == w2
    requires V(t) == NextWord(w16, w15, w7, w2)
    ensures WordFits(t)
  {
    hide V, NextWord;
  }

  lemma NumbersFrom0()
    ensures RoundConstant(0) == 0x428a2f98 && RoundConstant(1) == 0x71374491 && RoundConstant(2) == 0xb5c0fbcf && RoundConstant(3) == 0xe9b5dba5
    ensures RoundConstant(4) == 0x3956c25b && RoundConstant(5) == 0x59f111f1 && RoundConstant(6) == 0x923f82a4 && RoundConstant(7) == 0xab1c5ed5
    ensures V(0) == 0x61626380 && V(1) == 0x00000000 && V(2) == 0x00000000 && V(3) == 0x00000000
    ensures V(4) == 0x00000000 && V(5) == 0x00000000 && V(6) == 0x00000000 && V(7) == 0x00000000
  {
  }

  lemma NumbersFrom8()
    ensures RoundConstant(8) == 0xd807aa98 && RoundConstant(9) == 0x12835b01 && RoundConstant(10) == 0x243185be && RoundConstant(11) == 0x550c7dc3
    ensures RoundConstant(12) == 0x72be5d74 && RoundConstant(13) == 0x80deb1fe && RoundConstant(14) == 0x9bdc06a7 && RoundConstant(15) == 0xc19bf174
    ensures V(8) == 0x00000000 && V(9) == 0x00000000 && V(10) == 0x00000000 && V(11) == 0x00000000
    ensures V(12) == 0x00000000 && V(13) == 0x00000000 && V(14) == 0x00000000 && V(15) == 0x00000018
  {
  }

  lemma NumbersFrom16()
    ensures RoundConstant(16) == 0xe49b69c1 && RoundConstant(17) == 0xefbe4786 && RoundConstant(18) == 0x0fc19dc6 && RoundConstant(19) == 0x240ca1cc
    ensures RoundConstant(20) == 0x2de92c6f && RoundConstant(21) == 0x4a7484aa && RoundConstant(22) == 0x5cb0a9dc && RoundConstant(23) == 0x76f988da
    ensures V(16) == 0x61626380 && V(17) == 0x000f0000 && V(18) == 0x7da86405 && V(19) == 0x600003c6
    ensures V(20) == 0x3e9d7b78 && V(21) == 0x0183fc00 && V(22) == 0x12dcbfdb && V(23) == 0xe2e2c38e
  {
  }

  lemma NumbersFrom24()
    ensures RoundConstant(24) == 0x983e5152 && RoundConstant(25) == 0xa831c66d && RoundConstant(26) == 0xb00327c8 && RoundConstant(27) == 0xbf597fc7
    ensures RoundConstant(28) == 0xc6e00bf3 && RoundConstant(29) == 0xd5a79147 && RoundConstant(30) == 0x06ca6351 && RoundConstant(31) == 0x14292967
    ensures V(24) == 0xc8215c1a && V(25) == 0xb73679a2 && V(26) == 0xe5bc3909 && V(27) == 0x32663c5b
    ensures V(28) == 0x9d209d67 && V(29) == 0xec8726cb && V(30) == 0x702138a4 && V(31) == 0xd3b7973b
  {
  }

  lemma NumbersFrom32()
    ensures RoundConstant(32) == 0x27b70a85 && RoundConstant(33) == 0x2e1b2138 && RoundConstant(34) == 0x4d2c6dfc && RoundConstant(35) == 0x53380d13
    ensures RoundConstant(36) == 0x650a7354 && RoundConstant(37) == 0x766a0abb && RoundConstant(38) == 0x81c2c92e && RoundConstant(39) == 0x92722c85
    ensures V(32) == 0x93f5997f && V(33) == 0x3b68ba73 && V(34) == 0xaff4ffc1 && V(35) == 0xf10a5c62
    ensures V(36) == 0x0a8b3996 && V(37) == 0x72af830a && V(38) == 0x9409e33e && V(39) == 0x24641522
  {
  }

  lemma NumbersFrom40()
    ensures RoundConstant(40) == 0xa2bfe8a1 && RoundConstant(41) == 0xa81a664b && RoundConstant(42) == 0xc24b8b70 && RoundConstant(43) == 0xc76c51a3
    ensures RoundConstant(44) == 0xd192e819 && RoundConstant(45) == 0xd6990624 && RoundConstant(46) == 0xf40e3585 && RoundConstant(47) == 0x106aa070
    ensures V(40) == 0x9f47bf94 && V(41) == 0xf0a64f5a && V(42) == 0x3e246a79 && V(43) == 0x27333ba3
    ensures V(44) == 0x0c4763f2 && V(45) == 0x840abf27 && V(46) == 0x7a290d5d && V(47) == 0x065c43da
  {
  }

  lemma NumbersFrom48()
    ensures RoundConstant(48) == 0x19a4c116 && RoundConstant(49) == 0x1e376c08 && RoundConstant(50) == 0x2748774c && RoundConstant(51) == 0x34b0bcb5
    ensures RoundConstant(52) == 0x391c0cb3 && RoundConstant(53) == 0x4ed8aa4a && RoundConstant(54) == 0x5b9cca4f && RoundConstant(55) == 0x682e6ff3
    ensures V(48) == 0xfb3e89cb && V(49) == 0xcc7617db && V(50) == 0xb9e66c34 && V(51) == 0xa9993667
    ensures V(52) == 0x84badedd && V(53) == 0xc21462bc && V(54) == 0x1487472c && V(55) == 0xb20f7a99
  {
  }

  lemma NumbersFrom56()
    ensures RoundConstant(56) == 0x748f82ee && RoundConstant(57) == 0x78a5636f && RoundConstant(58) == 0x84c87814 && RoundConstant(59) == 0x8cc70208
    ensures RoundConstant(60) == 0x90befffa && RoundConstant(61) == 0xa4506ceb && RoundConstant(62) == 0xbef9a3f7 && RoundConstant(63) == 0xc67178f2
    ensures V(56) == 0xef57b9cd && V(57) == 0xebe6b238 && V(58) == 0x9fe3095e && V(59) == 0x78bc8d4b
    ensures V(60) == 0xa43fcf15 && V(61) == 0x668b2ff8 && V(62) == 0xeeaba2cc && V(63) == 0x12b1edeb
  {
  }

  lemma WordsFrom16(t: nat)
    requires 16 <= t < 24
    ensures WordFits(t)
  {
    hide WordFits, V;
    NumbersFrom0();
    NumbersFrom8();
    NumbersFrom16();
    match t {
      case 16 => OneWord(16, 0x61626380, 0x00000000, 0x00000000, 0x00000000);
      case 17 => OneWord(17, 0x00000000, 0x00000000, 0x00000000, 0x00000018);
      case 18 => OneWord(18, 0x00000000, 0x00000000, 0x00000000, 0x61626380);
      case 19 => OneWord(19, 0x00000000, 0x00000000, 0x00000000, 0x000f0000);
      case 20 => OneWord(20, 0x00000000, 0x00000000, 0x00000000, 0x7da86405);
      case 21 => OneWord(21, 0x00000000, 0x00000000, 0x00000000, 0x600003c6);
      case 22 => OneWord(22, 0x00000000, 0x00000000, 0x00000018, 0x3e9d7b78);
      case 23 => OneWord(23, 0x00000000, 0x00000000, 0x61626380, 0x0183fc00);
    }
  }

  lemma WordsFrom24(t: nat)
    requires 24 <= t < 32
    ensures WordFits(t)
  {
    hide WordFits, V;
    NumbersFrom8();
    NumbersFrom16();
    NumbersFrom24();
    match t {
      case 24 => OneWord(24, 0x00000000, 0x00000000, 0x000f0000, 0x12dcbfdb);
      case 25 => OneWord(25, 0x00000000, 0x00000000, 0x7da86405, 0xe2e2c38e);
      case 26 => OneWord(26, 0x00000000, 0x00000000, 0x600003c6, 0xc8215c1a);
      case 27 => OneWord(27, 0x00000000, 0x00000000, 0x3e9d7b78, 0xb73679a2);
      case 28 => OneWord(28, 0x00000000, 0x00000000, 0x0183fc00, 0xe5bc3909);
      case 29 => OneWord(29, 0x00000000, 0x00000000, 0x12dcbfdb, 0x32663c5b);
      case 30 => OneWord(30, 0x00000000, 0x00000018, 0xe2e2c38e, 0x9d209d67);
      case 31 => OneWord(31, 0x00000018, 0x61626380, 0xc8215c1a, 0xec8726cb);
    }
  }

  lemma WordsFrom32(t: nat)
    requires 32 <= t < 40
    ensures WordFits(t)
  {
    hide WordFits, V;
    NumbersFrom16();
    NumbersFrom24();
    NumbersFrom32();
    match t {
      case 32 => OneWord(32, 0x61626380, 0x000f0000, 0xb73679a2, 0x702138a4);
      case 33 => OneWord(33, 0x000f0000, 0x7da86405, 0xe5bc3909, 0xd3b7973b);
      case 34 => OneWord(34, 0x7da86405, 0x600003c6, 0x32663c5b, 0x93f5997f);
      case 35 => OneWord(35, 0x600003c6, 0x3e9d7b78, 0x9d209d67, 0x3b68ba73);
      case 36 => OneWord(36, 0x3e9d7b78, 0x0183fc00, 0xec8726cb, 0xaff4ffc1);
      case 37 => OneWord(37, 0x0183fc00, 0x12dcbfdb, 0x702138a4, 0xf10a5c62);
      case 38 => OneWord(38, 0x12dcbfdb, 0xe2e2c38e, 0xd3b7973b, 0x0a8b3996);
      case 39 => OneWord(39, 0xe2e2c38e, 0xc8215c1a, 0x93f5997f, 0x72af830a);
    }
  }

  lemma WordsFrom40(t: nat)
    requires 40 <= t < 48
    ensures WordFits(t)
  {
    hide WordFits, V;
    NumbersFrom24();
    NumbersFrom32();
    NumbersFrom40();
    match t {
      case 40 => OneWord(40, 0xc8215c1a, 0xb73679a2, 0x3b68ba73, 0x9409e33e);
      case 41 => OneWord(41, 0xb73679a2, 0xe5bc3909, 0xaff4ffc1, 0x24641522);
      case 42 => OneWord(42, 0xe5bc3909, 0x32663c5b, 0xf10a5c62, 0x9f47bf94);
      case 43 => OneWord(43, 0x32663c5b, 0x9d209d67, 0x0a8b3996, 0xf0a64f5a);
      case 44 => OneWord(44, 0x9d209d67, 0xec8726cb, 0x72af830a, 0x3e246a79);
      case 45 => OneWord(45, 0xec8726cb, 0x702138a4, 0x9409e33e, 0x27333ba3);
      case 46 => OneWord(46, 0x702138a4, 0xd3b7973b, 0x24641522, 0x0c4763f2);
      case 47 => OneWord(47, 0xd3b7973b, 0x93f5997f, 0x9f47bf94, 0x840abf27);
    }
  }

  lemma WordsFrom48(t: nat)
    requires 48 <= t < 56
    ensures WordFits(t)
  {
    hide WordFits, V;
    NumbersFrom32();
    NumbersFrom40();
    NumbersFrom48();
    match t {
      case 48 => OneWord(48, 0x93f5997f, 0x3b68ba73, 0xf0a64f5a, 0x7a290d5d);
      case 49 => OneWord(49, 0x3b68ba73, 0xaff4ffc1, 0x3e246a79, 0x065c43da);
      case 50 => OneWord(50, 0xaff4ffc1, 0xf10a5c62, 0x27333ba3, 0xfb3e89cb);
      case 51 => OneWord(51, 0xf10a5c62, 0x0a8b3996, 0x0c4763f2, 0xcc7617db);
      case 52 => OneWord(52, 0x0a8b3996, 0x72af830a, 0x840abf27, 0xb9e66c34);
      case 53 => OneWord(53, 0x72af830a, 0x9409e33e, 0x7a290d5d, 0xa9993667);
      case 54 => OneWord(54, 0x9409e33e, 0x24641522, 0x065c43da, 0x84badedd);
      case 55 => OneWord(55, 0x24641522, 0x9f47bf94, 0xfb3e89cb, 0xc21462bc);
    }
  }

  lemma WordsFrom56(t: nat)
    requires 56 <= t < 64
    ensures WordFits(t)
  {
    hide WordFits, V;
    NumbersFrom40();
    NumbersFrom48();
    NumbersFrom56();
    match t {
      case 56 => OneWord(56, 0x9f47bf94, 0xf0a64f5a, 0xcc7617db, 0x1487472c);
      case 57 => OneWord(57, 0xf0a64f5a, 0x3e246a79, 0xb9e66c34, 0xb20f7a99);
      case 58 => OneWord(58, 0x3e246a79, 0x27333ba3, 0xa9993667, 0xef57b9cd);
      case 59 => OneWord(59, 0x27333ba3, 0x0c4763f2, 0x84badedd, 0xebe6b238);
      case 60 => OneWord(60, 0x0c4763f2, 0x840abf27, 0xc21462bc, 0x9fe3095e);
      case 61 => OneWord(61, 0x840abf27, 0x7a290d5d, 0x1487472c, 0x78bc8d4b);
      case 62 => OneWord(62, 0x7a290d5d, 0x065c43da, 0xb20f7a99, 0xa43fcf15);
      case 63 => OneWord(63, 0x065c43da, 0xfb3e89cb, 0xef57b9cd, 0x668b2ff8);
    }
  }

  lemma EveryWordFits(t: nat)
    requires 16 <= t < 64
    ensures WordFits(t)
  {
    hide WordFits;
    match t / 8 {
      case 2 => WordsFrom16(t);
      case 3 => WordsFrom24(t);
      case 4 => WordsFrom32(t);
      case 5 => WordsFrom40(t);
      case 6 => WordsFrom48(t);
      case 7 => WordsFrom56(t);
    }
  }

  const LAST: State := State(0x506e3058, 0xd39a2165, 0x04d24d6c, 0xb85e2ce9,
                             0x5ef50f24, 0xfb121210, 0x948d25b6, 0x961f4894)

  // The rounds on a schedule with these words.

  ghost predicate IsSchedule(w: seq<Word>)
  {
    |w| == ROUNDS && forall t :: 0 <= t < 64 ==> w[t] == V(t)
  }

  lemma OneRound(w: seq<Word>, t: nat, a: Word, b: Word, c: Word, d: Word, e: Word, f: Word, g: Word, h: Word,
                 k: Word, v: Word, x: Word, y: Word)
    requires IsSchedule(w) && t < 64
    requires Rounds(IV, w, t) == State(a, b, c, d, e, f, g, h) && RoundConstant(t) == k && V(t) == v
    requires Round(State(a, b, c, d, e, f, g, h), k, v) == State(x, a, b, c, y, e, f, g)
    ensures Rounds(IV, w, t + 1) == State(x, a, b, c, y, e, f, g)
  {
    hide V, RoundConstant, Round;
  }

  lemma RoundsFrom0(w: seq<Word>)
    requires IsSchedule(w)
    requires Rounds(IV, w, 0) == State(0x6a09e667, 0xbb67ae85, 0x3c6ef372, 0xa54ff53a,
                                      0x510e527f, 0x9b05688c, 0x1f83d9ab, 0x5be0cd19)
    ensures Rounds(IV, w, 8) == State(0x85a07b5f, 0xe5030380, 0x2b4209f5, 0x04409a6a,
                                      0x0c657a79, 0x9b27a401, 0x714260ad, 0x43ada245)
  {
    hide IsSchedule, Rounds, RoundConstant, V;
    NumbersFrom0();
    OneRound(w, 0, 0x6a09e667, 0xbb67ae85, 0x3c6ef372, 0xa54ff53a, 0x510e527f, 0x9b05688c,
             0x1f83d9ab, 0x5be0cd19, 0x428a2f98, 0x61626380, 0x5d6aebcd, 0xfa2a4622);
    OneRound(w, 1, 0x5d6aebcd, 0x6a09e667, 0xbb67ae85, 0x3c6ef372, 0xfa2a4622, 0x510e527f,
             0x9b05688c, 0x1f83d9ab, 0x71374491, 0x00000000, 0x5a6ad9ad, 0x78ce7989);
    OneRound(w, 2, 0x5a6ad9ad, 0x5d6aebcd, 0x6a09e667, 0xbb67ae85, 0x78ce7989, 0xfa2a4622,
             0x510e527f, 0x9b05688c, 0xb5c0fbcf, 0x00000000, 0xc8c347a7, 0xf92939eb);
    OneRound(w, 3, 0xc8c347a7, 0x5a6ad9ad, 0x5d6aebcd, 0x6a09e667, 0xf92939eb, 0x78ce7989,
             0xfa2a4622, 0x510e527f, 0xe9b5dba5, 0x00000000, 0xd550f666, 0x24e00850);
    OneRound(w, 4, 0xd550f666, 0xc8c347a7, 0x5a6ad9ad, 0x5d6aebcd, 0x24e00850, 0xf92939eb,
             0x78ce7989, 0xfa2a4622, 0x3956c25b, 0x00000000, 0x04409a6a, 0x43ada245);
    OneRound(w, 5, 0x04409a6a, 0xd550f666, 0xc8c347a7, 0x5a6ad9ad, 0x43ada245, 0x24e00850,
             0xf92939eb, 0x78ce7989, 0x59f111f1, 0x00000000, 0x2b4209f5, 0x714260ad);
    OneRound(w, 6, 0x2b4209f5, 0x04409a6a, 0xd550f666, 0xc8c347a7, 0x714260ad, 0x43ada245,
             0x24e00850, 0xf92939eb, 0x923f82a4, 0x00000000, 0xe5030380, 0x9b27a401);
    OneRound(w, 7, 0xe5030380, 0x2b4209f5, 0x04409a6a, 0xd550f666, 0x9b27a401, 0x714260ad,
             0x43ada245, 0x24e00850, 0xab1c5ed5, 0x00000000, 0x85a07b5f, 0x0c657a79);
  }

  lemma RoundsFrom8(w: seq<Word>)
    requires IsSchedule(w)
    requires Rounds(IV, w, 8) == State(0x85a07b5f, 0xe5030380, 0x2b4209f5, 0x04409a6a,
                                      0x0c657a79, 0x9b27a401, 0x714260ad, 0x43ada245)
    ensures Rounds(IV, w, 16) == State(0xb0fa238e, 0xc0645fde, 0xd932eb16, 0x87912990,
                                      0x07590dcd, 0x0b92f20c, 0x745a48de, 0x1e578218)
  {
    hide IsSchedule, Rounds, RoundConstant, V;
    NumbersFrom8();
    OneRound(w, 8, 0x85a07b5f, 0xe5030380, 0x2b4209f5, 0x04409a6a, 0x0c657a79, 0x9b27a401,
             0x714260ad, 0x43ada245, 0xd807aa98, 0x00000000, 0x8e04ecb9, 0x32ca2d8c);
    OneRound(w, 9, 0x8e04ecb9, 0x85a07b5f, 0xe5030380, 0x2b4209f5, 0x32ca2d8c, 0x0c657a79,
             0x9b27a401, 0x714260ad, 0x12835b01, 0x00000000, 0x8c87346b, 0x1cc92596);
    OneRound(w, 10, 0x8c87346b, 0x8e04ecb9, 0x85a07b5f, 0xe5030380, 0x1cc92596, 0x32ca2d8c,
             0x0c657a79, 0x9b27a401, 0x243185be, 0x00000000, 0x4798a3f4, 0x436b23e8);
    OneRound(w, 11, 0x4798a3f4, 0x8c87346b, 0x8e04ecb9, 0x85a07b5f, 0x436b23e8, 0x1cc92596,
             0x32ca2d8c, 0x0c657a79, 0x550c7dc3, 0x00000000, 0xf71fc5a9, 0x816fd6e9);
    OneRound(w, 12, 0xf71fc5a9, 0x4798a3f4, 0x8c87346b, 0x8e04ecb9, 0x816fd6e9, 0x436b23e8,
             0x1cc92596, 0x32ca2d8c, 0x72be5d74, 0x00000000, 0x87912990, 0x1e578218);
    OneRound(w, 13, 0x87912990, 0xf71fc5a9, 0x4798a3f4, 0x8c87346b, 0x1e578218, 0x816fd6e9,
             0x436b23e8, 0x1cc92596, 0x80deb1fe, 0x00000000, 0xd932eb16, 0x745a48de);
    OneRound(w, 14, 0xd932eb16, 0x87912990, 0xf71fc5a9, 0x4798a3f4, 0x745a48de, 0x1e578218,
             0x816fd6e9, 0x436b23e8, 0x9bdc06a7, 0x00000000, 0xc0645fde, 0x0b92f20c);
    OneRound(w, 15, 0xc0645fde, 0xd932eb16, 0x87912990, 0xf71fc5a9, 0x0b92f20c, 0x745a48de,
             0x1e578218, 0x816fd6e9, 0xc19bf174, 0x00000018, 0xb0fa238e, 0x07590dcd);
  }

  lemma RoundsFrom16(w: seq<Word>)
    requires IsSchedule(w)
    requires Rounds(IV, w, 16) == State(0xb0fa238e, 0xc0645fde, 0xd932eb16, 0x87912990,
                                      0x07590dcd, 0x0b92f20c, 0x745a48de, 0x1e578218)
    ensures Rounds(IV, w, 24) == State(0xc5d53d8d, 0xa7a3623f, 0xc2606d6d, 0x9dc68b63,
                                      0xaa47c347, 0x49f5114a, 0xe1257970, 0x8ada8930)
  {
    hide IsSchedule, Rounds, RoundConstant, V;
    NumbersFrom16();
    OneRound(w, 16, 0xb0fa238e, 0xc0645fde, 0xd932eb16, 0x87912990, 0x07590dcd, 0x0b92f20c,
             0x745a48de, 0x1e578218, 0xe49b69c1, 0x61626380, 0x21da9a9b, 0x8034229c);
    OneRound(w, 17, 0x21da9a9b, 0xb0fa238e, 0xc0645fde, 0xd932eb16, 0x8034229c, 0x07590dcd,
             0x0b92f20c, 0x745a48de, 0xefbe4786, 0x000f0000, 0xc2fbd9d1, 0x846ee454);
    OneRound(w, 18, 0xc2fbd9d1, 0x21da9a9b, 0xb0fa238e, 0xc0645fde, 0x846ee454, 0x8034229c,
             0x07590dcd, 0x0b92f20c, 0x0fc19dc6, 0x7da86405, 0xfe777bbf, 0xcc899961);
    OneRound(w, 19, 0xfe777bbf, 0xc2fbd9d1, 0x21da9a9b, 0xb0fa238e, 0xcc899961, 0x846ee454,
             0x8034229c, 0x07590dcd, 0x240ca1cc, 0x600003c6, 0xe1f20c33, 0xb0638179);
    OneRound(w, 20, 0xe1f20c33, 0xfe777bbf, 0xc2fbd9d1, 0x21da9a9b, 0xb0638179, 0xcc899961,
             0x846ee454, 0x8034229c, 0x2de92c6f, 0x3e9d7b78, 0x9dc68b63, 0x8ada8930);
    OneRound(w, 21, 0x9dc68b63, 0xe1f20c33, 0xfe777bbf, 0xc2fbd9d1, 0x8ada8930, 0xb0638179,
             0xcc899961, 0x846ee454, 0x4a7484aa, 0x0183fc00, 0xc2606d6d, 0xe1257970);
    OneRound(w, 22, 0xc2606d6d, 0x9dc68b63, 0xe1f20c33, 0xfe777bbf, 0xe1257970, 0x8ada8930,
             0xb0638179, 0xcc899961, 0x5cb0a9dc, 0x12dcbfdb, 0xa7a3623f, 0x49f5114a);
    OneRound(w, 23, 0xa7a3623f, 0xc2606d6d, 0x9dc68b63, 0xe1f20c33, 0x49f5114a, 0xe1257970,
             0x8ada8930, 0xb0638179, 0x76f988da, 0xe2e2c38e, 0xc5d53d8d, 0xaa47c347);
  }

  lemma RoundsFrom24(w: seq<Word>)
    requires IsSchedule(w)
    requires Rounds(IV, w, 24) == State(0xc5d53d8d, 0xa7a3623f, 0xc2606d6d, 0x9dc68b63,
                                      0xaa47c347, 0x49f5114a, 0xe1257970, 0x8ada8930)
    ensures Rounds(IV, w, 32) == State(0x73b33bf5, 0xea992a22, 0xa0060b30, 0x363482c9,
                                      0xba591112, 0x0109ab3a, 0xade79437, 0x6112a3b7)
  {
    hide IsSchedule, Rounds, RoundConstant, V;
    NumbersFrom24();
    OneRound(w, 24, 0xc5d53d8d, 0xa7a3623f, 0xc2606d6d, 0x9dc68b63, 0xaa47c347, 0x49f5114a,
             0xe1257970, 0x8ada8930, 0x983e5152, 0xc8215c1a, 0x1c2c2838, 0x2823ef91);
    OneRound(w, 25, 0x1c2c2838, 0xc5d53d8d, 0xa7a3623f, 0xc2606d6d, 0x2823ef91, 0xaa47c347,
             0x49f5114a, 0xe1257970, 0xa831c66d, 0xb73679a2, 0xcde8037d, 0x14383d8e);
    OneRound(w, 26, 0xcde8037d, 0x1c2c2838, 0xc5d53d8d, 0xa7a3623f, 0x14383d8e, 0x2823ef91,
             0xaa47c347, 0x49f5114a, 0xb00327c8, 0xe5bc3909, 0xb62ec4bc, 0xc74c6516);
    OneRound(w, 27, 0xb62ec4bc, 0xcde8037d, 0x1c2c2838, 0xc5d53d8d, 0xc74c6516, 0x14383d8e,
             0x2823ef91, 0xaa47c347, 0xbf597fc7, 0x32663c5b, 0x77d37528, 0xedffbff8);
    OneRound(w, 28, 0x77d37528, 0xb62ec4bc, 0xcde8037d, 0x1c2c2838, 0xedffbff8, 0xc74c6516,
             0x14383d8e, 0x2823ef91, 0xc6e00bf3, 0x9d209d67, 0x363482c9, 0x6112a3b7);
    OneRound(w, 29, 0x363482c9, 0x77d37528, 0xb62ec4bc, 0xcde8037d, 0x6112a3b7, 0xedffbff8,
             0xc74c6516, 0x14383d8e, 0xd5a79147, 0xec8726cb, 0xa0060b30, 0xade79437);
    OneRound(w, 30, 0xa0060b30, 0x363482c9, 0x77d37528, 0xb62ec4bc, 0xade79437, 0x6112a3b7,
             0xedffbff8, 0xc74c6516, 0x06ca6351, 0x702138a4, 0xea992a22, 0x0109ab3a);
    OneRound(w, 31, 0xea992a22, 0xa0060b30, 0x363482c9, 0x77d37528, 0x0109ab3a, 0xade79437,
             0x6112a3b7, 0xedffbff8, 0x14292967, 0xd3b7973b, 0x73b33bf5, 0xba591112);
  }

  lemma RoundsFrom32(w: seq<Word>)
    requires IsSchedule(w)
    requires Rounds(IV, w, 32) == State(0x73b33bf5, 0xea992a22, 0xa0060b30, 0x363482c9,
                                      0xba591112, 0x0109ab3a, 0xade79437, 0x6112a3b7)
    ensures Rounds(IV, w, 40) == State(0x79ea687a, 0x6dc57a8a, 0x34df1604, 0x41a65cb1,
                                      0x1efbc0a0, 0xf0781bc8, 0xa507a53d, 0x0772a26b)
  {
    hide IsSchedule, Rounds, RoundConstant, V;
    NumbersFrom32();
    OneRound(w, 32, 0x73b33bf5, 0xea992a22, 0xa0060b30, 0x363482c9, 0xba591112, 0x0109ab3a,
             0xade79437, 0x6112a3b7, 0x27b70a85, 0x93f5997f, 0x98e12507, 0x9cd9f5f6);
    OneRound(w, 33, 0x98e12507, 0x73b33bf5, 0xea992a22, 0xa0060b30, 0x9cd9f5f6, 0xba591112,
             0x0109ab3a, 0xade79437, 0x2e1b2138, 0x3b68ba73, 0xfe604df5, 0x59249dd3);
    OneRound(w, 34, 0xfe604df5, 0x98e12507, 0x73b33bf5, 0xea992a22, 0x59249dd3, 0x9cd9f5f6,
             0xba591112, 0x0109ab3a, 0x4d2c6dfc, 0xaff4ffc1, 0xa9a7738c, 0x085f3833);
    OneRound(w, 35, 0xa9a7738c, 0xfe604df5, 0x98e12507, 0x73b33bf5, 0x085f3833, 0x59249dd3,
             0x9cd9f5f6, 0xba591112, 0x53380d13, 0xf10a5c62, 0x65a0cfe4, 0xf4b002d6);
    OneRound(w, 36, 0x65a0cfe4, 0xa9a7738c, 0xfe604df5, 0x98e12507, 0xf4b002d6, 0x085f3833,
             0x59249dd3, 0x9cd9f5f6, 0x650a7354, 0x0a8b3996, 0x41a65cb1, 0x0772a26b);
    OneRound(w, 37, 0x41a65cb1, 0x65a0cfe4, 0xa9a7738c, 0xfe604df5, 0x0772a26b, 0xf4b002d6,
             0x085f3833, 0x59249dd3, 0x766a0abb, 0x72af830a, 0x34df1604, 0xa507a53d);
    OneRound(w, 38, 0x34df1604, 0x41a65cb1, 0x65a0cfe4, 0xa9a7738c, 0xa507a53d, 0x0772a26b,
             0xf4b002d6, 0x085f3833, 0x81c2c92e, 0x9409e33e, 0x6dc57a8a, 0xf0781bc8);
    OneRound(w, 39, 0x6dc57a8a, 0x34df1604, 0x41a65cb1, 0x65a0cfe4, 0xf0781bc8, 0xa507a53d,
             0x0772a26b, 0xf4b002d6, 0x92722c85, 0x24641522, 0x79ea687a, 0x1efbc0a0);
  }

  lemma RoundsFrom40(w: seq<Word>)
    requires IsSchedule(w)
    requires Rounds(IV, w, 40) == State(0x79ea687a, 0x6dc57a8a, 0x34df1604, 0x41a65cb1,
                                      0x1efbc0a0, 0xf0781bc8, 0xa507a53d, 0x0772a26b)
    ensures Rounds(IV, w, 48) == State(0x4172328d, 0xa14c14b0, 0x72ab4b91, 0x26628815,
                                      0xfecf0bc6, 0xd57b94a9, 0xb7755da1, 0xa80f11f0)
  {
    hide IsSchedule, Rounds, RoundConstant, V;
    NumbersFrom40();
    OneRound(w, 40, 0x79ea687a, 0x6dc57a8a, 0x34df1604, 0x41a65cb1, 0x1efbc0a0, 0xf0781bc8,
             0xa507a53d, 0x0772a26b, 0xa2bfe8a1, 0x9f47bf94, 0xd6670766, 0x26352d63);
    OneRound(w, 41, 0xd6670766, 0x79ea687a, 0x6dc57a8a, 0x34df1604, 0x26352d63, 0x1efbc0a0,
             0xf0781bc8, 0xa507a53d, 0xa81a664b, 0xf0a64f5a, 0xdf46652f, 0x838b2711);
    OneRound(w, 42, 0xdf46652f, 0xd6670766, 0x79ea687a, 0x6dc57a8a, 0x838b2711, 0x26352d63,
             0x1efbc0a0, 0xf0781bc8, 0xc24b8b70, 0x3e246a79, 0x17aa0dfe, 0xdecd4715);
    OneRound(w, 43, 0x17aa0dfe, 0xdf46652f, 0xd6670766, 0x79ea687a, 0xdecd4715, 0x838b2711,
             0x26352d63, 0x1efbc0a0, 0xc76c51a3, 0x27333ba3, 0x9d4baf93, 0xfda24c2e);
    OneRound(w, 44, 0x9d4baf93, 0x17aa0dfe, 0xdf46652f, 0xd6670766, 0xfda24c2e, 0xdecd4715,
             0x838b2711, 0x26352d63, 0xd192e819, 0x0c4763f2, 0x26628815, 0xa80f11f0);
    OneRound(w, 45, 0x26628815, 0x9d4baf93, 0x17aa0dfe, 0xdf46652f, 0xa80f11f0, 0xfda24c2e,
             0xdecd4715, 0x838b2711, 0xd6990624, 0x840abf27, 0x72ab4b91, 0xb7755da1);
    OneRound(w, 46, 0x72ab4b91, 0x26628815, 0x9d4baf93, 0x17aa0dfe, 0xb7755da1, 0xa80f11f0,
             0xfda24c2e, 0xdecd4715, 0xf40e3585, 0x7a290d5d, 0xa14c14b0, 0xd57b94a9);
    OneRound(w, 47, 0xa14c14b0, 0x72ab4b91, 0x26628815, 0x9d4baf93, 0xd57b94a9, 0xb7755da1,
             0xa80f11f0, 0xfda24c2e, 0x106aa070, 0x065c43da, 0x4172328d, 0xfecf0bc6);
  }

  lemma RoundsFrom48(w: seq<Word>)
    requires IsSchedule(w)
    requires Rounds(IV, w, 48) == State(0x4172328d, 0xa14c14b0, 0x72ab4b91, 0x26628815,
                                      0xfecf0bc6, 0xd57b94a9, 0xb7755da1, 0xa80f11f0)
    ensures Rounds(IV, w, 56) == State(0x38cc9913, 0x3ec45cdb, 0xf5702fdb, 0x101fd28f,
                                      0x54cb266b, 0xe50e1b4f, 0x9f4787c3, 0x529e7d00)
  {
    hide IsSchedule, Rounds, RoundConstant, V;
    NumbersFrom48();
    OneRound(w, 48, 0x4172328d, 0xa14c14b0, 0x72ab4b91, 0x26628815, 0xfecf0bc6, 0xd57b94a9,
             0xb7755da1, 0xa80f11f0, 0x19a4c116, 0xfb3e89cb, 0x05757ceb, 0xbd714038);
    OneRound(w, 49, 0x05757ceb, 0x4172328d, 0xa14c14b0, 0x72ab4b91, 0xbd714038, 0xfecf0bc6,
             0xd57b94a9, 0xb7755da1, 0x1e376c08, 0xcc7617db, 0xf11bfaa8, 0x6e5c390c);
    OneRound(w, 50, 0xf11bfaa8, 0x05757ceb, 0x4172328d, 0xa14c14b0, 0x6e5c390c, 0xbd714038,
             0xfecf0bc6, 0xd57b94a9, 0x2748774c, 0xb9e66c34, 0x7a0508a1, 0x52f1ccf7);
    OneRound(w, 51, 0x7a0508a1, 0xf11bfaa8, 0x05757ceb, 0x4172328d, 0x52f1ccf7, 0x6e5c390c,
             0xbd714038, 0xfecf0bc6, 0x34b0bcb5, 0xa9993667, 0x886e7a22, 0x49231c1e);
    OneRound(w, 52, 0x886e7a22, 0x7a0508a1, 0xf11bfaa8, 0x05757ceb, 0x49231c1e, 0x52f1ccf7,
             0x6e5c390c, 0xbd714038, 0x391c0cb3, 0x84badedd, 0x101fd28f, 0x529e7d00);
    OneRound(w, 53, 0x101fd28f, 0x886e7a22, 0x7a0508a1, 0xf11bfaa8, 0x529e7d00, 0x49231c1e,
             0x52f1ccf7, 0x6e5c390c, 0x4ed8aa4a, 0xc21462bc, 0xf5702fdb, 0x9f4787c3);
    OneRound(w, 54, 0xf5702fdb, 0x101fd28f, 0x886e7a22, 0x7a0508a1, 0x9f4787c3, 0x529e7d00,
             0x49231c1e, 0x52f1ccf7, 0x5b9cca4f, 0x1487472c, 0x3ec45cdb, 0xe50e1b4f);
    OneRound(w, 55, 0x3ec45cdb, 0xf5702fdb, 0x101fd28f, 0x886e7a22, 0xe50e1b4f, 0x9f4787c3,
             0x529e7d00, 0x49231c1e, 0x682e6ff3, 0xb20f7a99, 0x38cc9913, 0x54cb266b);
  }

  lemma RoundsFrom56(w: seq<Word>)
    requires IsSchedule(w)
    requires Rounds(IV, w, 56) == State(0x38cc9913, 0x3ec45cdb, 0xf5702fdb, 0x101fd28f,
                                      0x54cb266b, 0xe50e1b4f, 0x9f4787c3, 0x529e7d00)
    ensures Rounds(IV, w, 64) == State(0x506e3058, 0xd39a2165, 0x04d24d6c, 0xb85e2ce9,
                                      0x5ef50f24, 0xfb121210, 0x948d25b6, 0x961f4894)
  {
    hide IsSchedule, Rounds, RoundConstant, V;
    NumbersFrom56();
    OneRound(w, 56, 0x38cc9913, 0x3ec45cdb, 0xf5702fdb, 0x101fd28f, 0x54cb266b, 0xe50e1b4f,
             0x9f4787c3, 0x529e7d00, 0x748f82ee, 0xef57b9cd, 0xfcd1887b, 0x9b5e906c);
    OneRound(w, 57, 0xfcd1887b, 0x38cc9913, 0x3ec45cdb, 0xf5702fdb, 0x9b5e906c, 0x54cb266b,
             0xe50e1b4f, 0x9f4787c3, 0x78a5636f, 0xebe6b238, 0xc062d46f, 0x7e44008e);
    OneRound(w, 58, 0xc062d46f, 0xfcd1887b, 0x38cc9913, 0x3ec45cdb, 0x7e44008e, 0x9b5e906c,
             0x54cb266b, 0xe50e1b4f, 0x84c87814, 0x9fe3095e, 0xffb70472, 0x6d83bfc6);
    OneRound(w, 59, 0xffb70472, 0xc062d46f, 0xfcd1887b, 0x38cc9913, 0x6d83bfc6, 0x7e44008e,
             0x9b5e906c, 0x54cb266b, 0x8cc70208, 0x78bc8d4b, 0xb6ae8fff, 0xb21bad3d);
    OneRound(w, 60, 0xb6ae8fff, 0xffb70472, 0xc062d46f, 0xfcd1887b, 0xb21bad3d, 0x6d83bfc6,
             0x7e44008e, 0x9b5e906c, 0x90befffa, 0xa43fcf15, 0xb85e2ce9, 0x961f4894);
    OneRound(w, 61, 0xb85e2ce9, 0xb6ae8fff, 0xffb70472, 0xc062d46f, 0x961f4894, 0xb21bad3d,
             0x6d83bfc6, 0x7e44008e, 0xa4506ceb, 0x668b2ff8, 0x04d24d6c, 0x948d25b6);
    OneRound(w, 62, 0x04d24d6c, 0xb85e2ce9, 0xb6ae8fff, 0xffb70472, 0x948d25b6, 0x961f4894,
             0xb21bad3d, 0x6d83bfc6, 0xbef9a3f7, 0xeeaba2cc, 0xd39a2165, 0xfb121210);
    OneRound(w, 63, 0xd39a2165, 0x04d24d6c, 0xb85e2ce9, 0xb6ae8fff, 0xfb121210, 0x948d25b6,
             0x961f4894, 0xb21bad3d, 0xc67178f2, 0x12b1edeb, 0x506e3058, 0x5ef50f24);
  }

  lemma LengthOfAbc()
    ensures BigEndian64(BitCount(3)) == Zeros(7) + [0x18]
  {
    hide ToByte;
    assert BitCount(3) == 24;
    SomeBytes();
  }

  lemma SomeBytes()
    ensures ToByte(24) == 0x18 && ToByte(0) == 0
  {
  }

  // The one block of the padded message.
  lemma PadOfAbc()
    ensures Pad(ABC) == ABC + [0x80] + Zeros(59) + [0x18]
  {
    hide BigEndian64, BitCount;
    LengthOfAbc();
    assert PadFront(ABC) == ABC + [0x80] + Zeros(52) by { FrontOfAbc(); }
  }

  lemma FrontOfAbc()
    ensures PadFront(ABC) == ABC + [0x80] + Zeros(52)
  {
    assert ZeroBytes(3) == 52;
  }

  lemma FirstWords(t: nat)
    requires t < 16
    ensures |Pad(ABC)| == 64 && WordAt(Pad(ABC), t) == V(t)
  {
    hide Pad;
    PadOfAbc();
    match t {
      case 0 => case 1 => case 2 => case 3 => case 4 => case 5 => case 6 => case 7 =>
      case 8 => case 9 => case 10 => case 11 => case 12 => case 13 => case 14 => case 15 =>
    }
  }

  lemma ScheduleOfAbc(t: nat)
    requires t < 64
    ensures |Pad(ABC)| == 64 && W(Pad(ABC), t) == V(t)
  {
    hide Pad, WordAt, V, NextWord;
    if t < 16 {
      FirstWords(t);
    } else {
      ScheduleOfAbc(t - 16);
      ScheduleOfAbc(t - 15);
      ScheduleOfAbc(t - 7);
      ScheduleOfAbc(t - 2);
      EveryWordFits(t);
    }
  }

  lemma AllWordsOfAbc()
    ensures |Pad(ABC)| == 64 && IsSchedule(Schedule(Pad(ABC)))
  {
    hide Pad, W, V;
    ScheduleOfAbc(0);
    forall t | 0 <= t < 64
      ensures W(Pad(ABC), t) == V(t)
    {
      ScheduleOfAbc(t);
    }
  }

  lemma NoRounds(w: seq<Word>)
    requires |w| == ROUNDS
    ensures Rounds(IV, w, 0) == IV
  {
  }

  lemma RoundsOfAbc(w: seq<Word>)
    requires IsSchedule(w)
    ensures Rounds(IV, w, 64) == LAST
  {
    hide Rounds;
    NoRounds(w);
    RoundsFrom0(w);
    RoundsFrom8(w);
    RoundsFrom16(w);
    RoundsFrom24(w);
    RoundsFrom32(w);
    RoundsFrom40(w);
    RoundsFrom48(w);
    RoundsFrom56(w);
  }

  const HASH: State := State(0xba7816bf, 0x8f01cfea, 0x414140de, 0x5dae2223,
                             0xb00361a3, 0x96177a9c, 0xb410ff61, 0xf20015ad)

  lemma LastState()
    ensures AddStates(IV, LAST) == HASH
  {
  }

  // Four bytes to a row.
  const DIGEST: seq<seq<Byte>> := [
    [0xba, 0x78, 0x16, 0xbf], [0x8f, 0x01, 0xcf, 0xea], [0x41, 0x41, 0x40, 0xde], [0x5d, 0xae, 0x22, 0x23],
    [0xb0, 0x03, 0x61, 0xa3], [0x96, 0x17, 0x7a, 0x9c], [0xb4, 0x10, 0xff, 0x61], [0xf2, 0x00, 0x15, 0xad]]

  lemma BytesOfHash(k: nat)
    requires k < 32
    ensures StateBytes(HASH)[k] == DIGEST[k / 4][k % 4]
  {
    hide ByteOf, WordIn;
    WordOfHash(k / 4);
  }

  ghost predicate IsWordOfDigest(w: Word, four: seq<Byte>)
  {
    four == [ByteOf(w, 24), ByteOf(w, 16), ByteOf(w, 8), ByteOf(w, 0)]
  }

  lemma WordOfHash(i: nat)
    requires i < 8
    ensures IsWordOfDigest(WordIn(HASH, i), DIGEST[i])
  {
    hide IsWordOfDigest;
    match i {
      case 0 => FourBytes(0, 0xba7816bf, 0xba, 0x78, 0x16, 0xbf);
      case 1 => FourBytes(1, 0x8f01cfea, 0x8f, 0x01, 0xcf, 0xea);
      case 2 => FourBytes(2, 0x414140de, 0x41, 0x41, 0x40, 0xde);
      case 3 => FourBytes(3, 0x5dae2223, 0x5d, 0xae, 0x22, 0x23);
      case 4 => FourBytes(4, 0xb00361a3, 0xb0, 0x03, 0x61, 0xa3);
      case 5 => FourBytes(5, 0x96177a9c, 0x96, 0x17, 0x7a, 0x9c);
      case 6 => FourBytes(6, 0xb410ff61, 0xb4, 0x10, 0xff, 0x61);
      case 7 => FourBytes(7, 0xf20015ad, 0xf2, 0x00, 0x15, 0xad);
    }
  }

  lemma FourBytes(i: nat, w: Word, b0: Byte, b1: Byte, b2: Byte, b3: Byte)
    requires i < 8 && WordIn(HASH, i) == w && DIGEST[i] == [b0, b1, b2, b3]
    requires ByteOf(w, 24) == b0 && ByteOf(w, 16) == b1 && ByteOf(w, 8) == b2 && ByteOf(w, 0) == b3
    ensures IsWordOfDigest(WordIn(HASH, i), DIGEST[i])
  {
    hide WordIn, ByteOf;
  }

  ghost predicate IsDigestOfAbc(digest: seq<Byte>)
  {
    |digest| == 32 && forall k :: 0 <= k < 32 ==> digest[k] == DIGEST[k / 4][k % 4]
  }

  lemma BytesMakeTheDigest()
    ensures IsDigestOfAbc(StateBytes(HASH))
  {
    hide StateBytes;
    forall k | 0 <= k < 32
      ensures StateBytes(HASH)[k] == DIGEST[k / 4][k % 4]
    {
      BytesOfHash(k);
    }
  }

  lemma DigestOfAbc()
    ensures IsDigestOfAbc(Sha256(ABC))
  {
    hide Pad, Rounds, Schedule, AddStates, StateBytes, IsSchedule, IsDigestOfAbc;
    AllWordsOfAbc();
    RoundsOfAbc(Schedule(Pad(ABC)));
    LastState();
    assert Pad(ABC)[64 * (1 - 1)..64 * 1] == Pad(ABC);
    assert HashBlocks(Pad(ABC), 1) == HASH;
    BytesMakeTheDigest();
  }
}
