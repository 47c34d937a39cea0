/** What the SHA-256 steps lose and what they keep: the rounds and the message schedule
    can be run backwards, and the message can be read back from its padding. */
module Sha256Facts {
  import opened Arithmetic
  import opened Sha256Spec

  function Sub(x: Word, y: Word): Word { x - y }

  lemma WordAddition(x: Word, y: Word)
    ensures (x + y) - y == x && (x + y) - x == y && (x - y) + y == x
  {
  }

  lemma AddSub(x: Word, y: Word)
    ensures Sub(Add(x, y), y) == x && Sub(Add(x, y), x) == y
    ensures Add(Sub(x, y), y) == x
  {
    WordAddition(x, y);
    assert Add(x, y) == x + y && Sub(x, y) == x - y;
  }

  // The state a round started from.
  function InverseRound(s: State, k: Word, w: Word): State
  {
    var t2 := Add(BigSigma0(s.b), Maj(s.b, s.c, s.d));
    var t1 := Sub(s.a, t2);
    var h := Sub(Sub(Sub(Sub(t1, w), k), Ch(s.f, s.g, s.h)), BigSigma1(s.f));
    State(s.b, s.c, s.d, Sub(s.e, t1), s.f, s.g, s.h, h)
  }

  lemma RoundIsPermutation(s: State, k: Word, w: Word)
    ensures InverseRound(Round(s, k, w), k, w) == s
    ensures Round(InverseRound(s, k, w), k, w) == s
  {
    hide Add, Sub, BigSigma0, BigSigma1, Maj, Ch;
    var x0 := Add(s.h, BigSigma1(s.e));
    var x1 := Add(x0, Ch(s.e, s.f, s.g));
    var x2 := Add(x1, k);
    var t1 := Add(x2, w);
    AddSub(s.h, BigSigma1(s.e));
    AddSub(x0, Ch(s.e, s.f, s.g));
    AddSub(x1, k);
    AddSub(x2, w);
    AddSub(t1, Add(BigSigma0(s.a), Maj(s.a, s.b, s.c)));
    AddSub(s.d, t1);
    var u2 := Add(BigSigma0(s.b), Maj(s.b, s.c, s.d));
    var u1 := Sub(s.a, u2);
    AddSub(s.a, u2);
    AddSub(s.e, u1);
    AddSub(u1, w);
    AddSub(Sub(u1, w), k);
    AddSub(Sub(Sub(u1, w), k), Ch(s.f, s.g, s.h));
    AddSub(Sub(Sub(Sub(u1, w), k), Ch(s.f, s.g, s.h)), BigSigma1(s.f));
  }

  function InverseRounds(s: State, w: seq<Word>, t: nat): State
    requires |w| == ROUNDS && t <= ROUNDS
    decreases t
  {
    if t == 0 then s else InverseRounds(InverseRound(s, RoundConstant(t - 1), w[t - 1]), w, t - 1)
  }

  lemma {:induction false} RoundsArePermutation(s: State, w: seq<Word>, t: nat)
    requires |w| == ROUNDS && t <= ROUNDS
    ensures InverseRounds(Rounds(s, w, t), w, t) == s
    ensures Rounds(InverseRounds(s, w, t), w, t) == s
    decreases t
  {
    hide Round, InverseRound, RoundConstant;
    if t > 0 {
      var before := Rounds(s, w, t - 1);
      RoundIsPermutation(before, RoundConstant(t - 1), w[t - 1]);
      RoundIsPermutation(s, RoundConstant(t - 1), w[t - 1]);
      RoundsArePermutation(s, w, t - 1);
      RoundsArePermutation(InverseRound(s, RoundConstant(t - 1), w[t - 1]), w, t - 1);
    }
  }

  ghost predicate FollowsAt(w: seq<Word>, t: nat)
    requires 16 <= t < |w|
  {
    w[t] == NextWord(w[t - 16], w[t - 15], w[t - 7], w[t - 2])
  }

  ghost predicate IsSchedule(w: seq<Word>)
  {
    |w| == ROUNDS && forall t :: 16 <= t < ROUNDS ==> FollowsAt(w, t)
  }

  lemma SchedulesObeyTheRecurrence(block: seq<Byte>)
    requires |block| == 64
    ensures IsSchedule(Schedule(block))
    ensures forall t :: 0 <= t < 16 ==> Schedule(block)[t] == WordAt(block, t)
  {
    hide NextWord, WordAt;
  }

  lemma NextWordDeterminesOldest(w16: Word, v16: Word, w15: Word, w7: Word, w2: Word)
    requires NextWord(w16, w15, w7, w2) == NextWord(v16, w15, w7, w2)
    ensures w16 == v16
  {
    hide Add, SmallSigma0, SmallSigma1;
    var sum := Add(Add(SmallSigma1(w2), w7), SmallSigma0(w15));
    AddSub(sum, w16);
    AddSub(sum, v16);
  }

  ghost predicate Agree(v: seq<Word>, w: seq<Word>, lo: nat, hi: nat)
  {
    && |v| == |w| == ROUNDS
    && lo <= hi <= ROUNDS
    && forall t :: lo <= t < hi ==> v[t] == w[t]
  }

  lemma {:induction false} AgreeForwards(v: seq<Word>, w: seq<Word>, lo: nat, hi: nat)
    requires IsSchedule(v) && IsSchedule(w) && Agree(v, w, lo, hi) && lo + 16 <= hi
    ensures Agree(v, w, lo, ROUNDS)
    decreases ROUNDS - hi
  {
    hide NextWord;
    if hi < ROUNDS {
      assert FollowsAt(v, hi) && FollowsAt(w, hi);
      AgreeForwards(v, w, lo, hi + 1);
    }
  }

  lemma {:induction false} AgreeBackwards(v: seq<Word>, w: seq<Word>, lo: nat)
    requires IsSchedule(v) && IsSchedule(w) && Agree(v, w, lo, ROUNDS) && lo + 16 <= ROUNDS
    ensures Agree(v, w, 0, ROUNDS)
  {
    hide NextWord;
    if lo > 0 {
      var t := lo + 15;
      assert FollowsAt(v, t) && FollowsAt(w, t);
      NextWordDeterminesOldest(v[t - 16], w[t - 16], v[t - 15], v[t - 7], v[t - 2]);
      AgreeBackwards(v, w, lo - 1);
    }
  }

  // Sixteen consecutive words fix the whole schedule, those before as well as those after.
  lemma AnySixteenWordsFixTheSchedule(v: seq<Word>, w: seq<Word>, i: nat)
    requires IsSchedule(v) && IsSchedule(w) && Agree(v, w, i, i + 16)
    ensures v == w
  {
    hide IsSchedule;
    AgreeForwards(v, w, i, i + 16);
    AgreeBackwards(v, w, i);
  }

  lemma WordDeterminesBytes(a: Byte, b: Byte, c: Byte, d: Byte)
    ensures var w := WordOf(a, b, c, d);
            ByteOf(w, 24) == a && ByteOf(w, 16) == b && ByteOf(w, 8) == c && ByteOf(w, 0) == d
  {
  }

  lemma FirstWordsDetermineBlock(x: seq<Byte>, y: seq<Byte>)
    requires |x| == 64 && |y| == 64
    requires forall t :: 0 <= t < 16 ==> WordAt(x, t) == WordAt(y, t)
    ensures x == y
  {
    hide WordOf, ByteOf;
    forall j | 0 <= j < 64
      ensures x[j] == y[j]
    {
      var t := j / 4;
      assert WordAt(x, t) == WordAt(y, t);
      WordDeterminesBytes(x[4 * t], x[4 * t + 1], x[4 * t + 2], x[4 * t + 3]);
      WordDeterminesBytes(y[4 * t], y[4 * t + 1], y[4 * t + 2], y[4 * t + 3]);
      assert j == 4 * t || j == 4 * t + 1 || j == 4 * t + 2 || j == 4 * t + 3;
    }
  }

  // Hence no two blocks share sixteen consecutive words at the same place.
  lemma AnySixteenWordsFixTheBlock(x: seq<Byte>, y: seq<Byte>, i: nat)
    requires |x| == 64 && |y| == 64 && i + 16 <= ROUNDS
    requires Agree(Schedule(x), Schedule(y), i, i + 16)
    ensures x == y
  {
    hide Schedule, WordAt, IsSchedule, Agree;
    SchedulesObeyTheRecurrence(x);
    SchedulesObeyTheRecurrence(y);
    AnySixteenWordsFixTheSchedule(Schedule(x), Schedule(y), i);
    FirstWordsDetermineBlock(x, y);
  }

  // Reading the message back from its padding.

  function Join(o0: nat, o1: nat, o2: nat, o3: nat, o4: nat, o5: nat, o6: nat, o7: nat): nat
  {
    0x100_0000_0000_0000 * o0 + 0x1_0000_0000_0000 * o1 + 0x100_0000_0000 * o2 + 0x1_0000_0000 * o3
    + 0x100_0000 * o4 + 0x1_0000 * o5 + 0x100 * o6 + o7
  }

  function FromBigEndian64(bytes: seq<Byte>): nat
    requires |bytes| == 8
  {
    Join(bytes[0] as nat, bytes[1] as nat, bytes[2] as nat, bytes[3] as nat,
         bytes[4] as nat, bytes[5] as nat, bytes[6] as nat, bytes[7] as nat)
  }

  function Unpad(p: seq<Byte>): seq<Byte>
    requires |p| >= 8
  {
    var length := FromBigEndian64(p[|p| - 8..]) / 8;
    if length <= |p| then p[..length] else []
  }

  lemma NextQuotient(n: nat, unit: nat, next: nat)
    requires unit > 0 && next == 256 * unit
    ensures n / unit == 256 * (n / next) + n / unit % 256
  {
    var q := n / unit;
    var rest := unit * (q % 256) + n % unit;
    assert n == unit * q + n % unit;
    assert n == next * (q / 256) + rest;
    assert unit * (q % 256) <= unit * 255;
    assert 0 <= rest < next;
    QuotientIsUnique(n, next, q / 256, rest);
  }

  lemma BigEndian64Octets(n: nat, b: seq<Byte>)
    requires b == BigEndian64(n)
    ensures b[0] as nat == n / 0x100_0000_0000_0000 % 256 && b[1] as nat == n / 0x1_0000_0000_0000 % 256
    ensures b[2] as nat == n / 0x100_0000_0000 % 256 && b[3] as nat == n / 0x1_0000_0000 % 256
    ensures b[4] as nat == n / 0x100_0000 % 256 && b[5] as nat == n / 0x1_0000 % 256
    ensures b[6] as nat == n / 0x100 % 256 && b[7] as nat == n % 256
  {
  }

  lemma JoinedQuotients(n: nat)
    requires n < 0x1_0000_0000_0000_0000
    ensures n == Join(n / 0x100_0000_0000_0000 % 256, n / 0x1_0000_0000_0000 % 256,
                      n / 0x100_0000_0000 % 256, n / 0x1_0000_0000 % 256,
                      n / 0x100_0000 % 256, n / 0x1_0000 % 256, n / 0x100 % 256, n % 256)
  {
    hide Join;
    NextQuotient(n, 1, 0x100);
    NextQuotient(n, 0x100, 0x1_0000);
    NextQuotient(n, 0x1_0000, 0x100_0000);
    NextQuotient(n, 0x100_0000, 0x1_0000_0000);
    NextQuotient(n, 0x1_0000_0000, 0x100_0000_0000);
    NextQuotient(n, 0x100_0000_0000, 0x1_0000_0000_0000);
    NextQuotient(n, 0x1_0000_0000_0000, 0x100_0000_0000_0000);
    Horner(n, n / 0x100, n / 0x1_0000, n / 0x100_0000, n / 0x1_0000_0000,
           n / 0x100_0000_0000, n / 0x1_0000_0000_0000, n / 0x100_0000_0000_0000);
  }

  lemma BigEndian64RoundTrip(n: nat)
    requires n < 0x1_0000_0000_0000_0000
    ensures FromBigEndian64(BigEndian64(n)) == n
  {
    hide Octet, BigEndian64, Join;
    BigEndian64Octets(n, BigEndian64(n));
    JoinedQuotients(n);
  }

  lemma Horner(n: nat, q1: nat, q2: nat, q3: nat, q4: nat, q5: nat, q6: nat, q7: nat)
    requires n == 256 * q1 + n % 256 && q1 == 256 * q2 + q1 % 256 && q2 == 256 * q3 + q2 % 256
    requires q3 == 256 * q4 + q3 % 256 && q4 == 256 * q5 + q4 % 256 && q5 == 256 * q6 + q5 % 256
    requires q6 == 256 * q7 + q6 % 256 && q7 < 256
    ensures n == Join(q7, q6 % 256, q5 % 256, q4 % 256, q3 % 256, q2 % 256, q1 % 256, n % 256)
  {
  }

  lemma MessageIsInItsPadding(m: seq<Byte>)
    requires |m| < 0x2000_0000_0000_0000
    ensures Unpad(Pad(m)) == m
  {
    hide BigEndian64, PadFront, FromBigEndian64;
    var p := Pad(m);
    assert p[|p| - 8..] == BigEndian64(BitCount(|m|));
    BigEndian64RoundTrip(8 * |m|);
    assert p[..|m|] == m;
  }

  lemma PadIsInjective(m: seq<Byte>, m': seq<Byte>)
    requires |m| < 0x2000_0000_0000_0000 && |m'| < 0x2000_0000_0000_0000
    requires Pad(m) == Pad(m')
    ensures m == m'
  {
    hide Pad, Unpad;
    MessageIsInItsPadding(m);
    MessageIsInItsPadding(m');
  }

  // The padding is at least nine bytes and never a whole spare block.
  lemma PadLength(m: seq<Byte>)
    ensures |Pad(m)| % 64 == 0 && |m| + 9 <= |Pad(m)| < |m| + 9 + 64
    ensures m <= Pad(m)
  {
    hide BigEndian64;
    assert PadFront(m) <= Pad(m);
  }
}
