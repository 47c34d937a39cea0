/** SHA-256 as FIPS 180-4 defines it: one message in, one digest out, no state.
    Messages are whole bytes, as everywhere in this system. */
module Sha256Spec {

  type Byte = bv8
  type Word = bv32

  // A chaining value or working state: always eight words.
  datatype State = State(a: Word, b: Word, c: Word, d: Word, e: Word, f: Word, g: Word, h: Word)

  // Section 4.1.2: the six logical functions (ROTR is section 3.2).

  function Rotr(x: Word, n: bv6): Word
    requires 0 < n < 32
  {
    (x >> n) | (x << (32 - n))
  }

  // Section 3.2: addition modulo 2^32, the addition of 32-bit words.
  function Add(x: Word, y: Word): Word { x + y }

  function Ch(x: Word, y: Word, z: Word): Word { (x & y) ^ (!x & z) }

  function Maj(x: Word, y: Word, z: Word): Word { (x & y) ^ (x & z) ^ (y & z) }

  function BigSigma0(x: Word): Word { Rotr(x, 2) ^ Rotr(x, 13) ^ Rotr(x, 22) }

  function BigSigma1(x: Word): Word { Rotr(x, 6) ^ Rotr(x, 11) ^ Rotr(x, 25) }

  function SmallSigma0(x: Word): Word { Rotr(x, 7) ^ Rotr(x, 18) ^ (x >> 3) }

  function SmallSigma1(x: Word): Word { Rotr(x, 17) ^ Rotr(x, 19) ^ (x >> 10) }

  const ROUNDS: nat := 64

  // Section 4.2.2, eight to a row.
  const K: seq<seq<Word>> := [
    [0x428a2f98, 0x71374491, 0xb5c0fbcf, 0xe9b5dba5, 0x3956c25b, 0x59f111f1, 0x923f82a4, 0xab1c5ed5],
    [0xd807aa98, 0x12835b01, 0x243185be, 0x550c7dc3, 0x72be5d74, 0x80deb1fe, 0x9bdc06a7, 0xc19bf174],
    [0xe49b69c1, 0xefbe4786, 0x0fc19dc6, 0x240ca1cc, 0x2de92c6f, 0x4a7484aa, 0x5cb0a9dc, 0x76f988da],
    [0x983e5152, 0xa831c66d, 0xb00327c8, 0xbf597fc7, 0xc6e00bf3, 0xd5a79147, 0x06ca6351, 0x14292967],
    [0x27b70a85, 0x2e1b2138, 0x4d2c6dfc, 0x53380d13, 0x650a7354, 0x766a0abb, 0x81c2c92e, 0x92722c85],
    [0xa2bfe8a1, 0xa81a664b, 0xc24b8b70, 0xc76c51a3, 0xd192e819, 0xd6990624, 0xf40e3585, 0x106aa070],
    [0x19a4c116, 0x1e376c08, 0x2748774c, 0x34b0bcb5, 0x391c0cb3, 0x4ed8aa4a, 0x5b9cca4f, 0x682e6ff3],
    [0x748f82ee, 0x78a5636f, 0x84c87814, 0x8cc70208, 0x90befffa, 0xa4506ceb, 0xbef9a3f7, 0xc67178f2]]

  function RoundConstant(t: nat): Word
    requires t < ROUNDS
  {
    K[t / 8][t % 8]
  }

  // Section 5.3.3.
  const IV: State := State(0x6a09e667, 0xbb67ae85, 0x3c6ef372, 0xa54ff53a,
                           0x510e527f, 0x9b05688c, 0x1f83d9ab, 0x5be0cd19)

  // Section 5.1.1: the message, the bit 1, the least number of 0 bits that leaves
  // 64 bits free in the last block, and the message length in bits on 64 bits.

  function Zeros(n: nat): (z: seq<Byte>)
    ensures |z| == n
  {
    seq(n, _ => 0)
  }

  predicate LeavesLengthField(length: nat, z: nat)
  {
    (length + 1 + z) % 64 == 56
  }

  function ZeroBytes(length: nat): (n: nat)
    ensures LeavesLengthField(length, n)
    ensures forall z: nat :: LeavesLengthField(length, z) ==> n <= z
  {
    var r := length % 64;
    if r <= 55 then 55 - r else 119 - r
  }

  // The standard speaks of messages below 2^64 bits; a longer one keeps the low
  // 64 bits of its length, as a 64-bit counter does.
  function BitCount(bytes: nat): nat
  {
    8 * bytes % 0x1_0000_0000_0000_0000
  }

  // The byte with value `x`, bit by bit.
  function ToByte(x: nat): (b: Byte)
    requires x < 256
    ensures b as nat == x
  {
    if x == 0 then 0
    else
      var half := ToByte(x / 2);
      ShiftedIn(half);
      (half << 1) | (if x % 2 == 1 then 1 else 0)
  }

  lemma ShiftedIn(b: Byte)
    requires b as nat < 128
    ensures ((b << 1) | 0) as nat == 2 * (b as nat) && ((b << 1) | 1) as nat == 2 * (b as nat) + 1
  {
  }

  // The byte of `n` that stands at the power `unit` of 256.
  function Octet(n: nat, unit: nat): Byte
    requires unit > 0
  {
    ToByte(n / unit % 256)
  }

  // The 64-bit number `n` as eight bytes, most significant first.
  function BigEndian64(n: nat): (r: seq<Byte>)
    ensures |r| == 8
  {
    [Octet(n, 0x100_0000_0000_0000), Octet(n, 0x1_0000_0000_0000), Octet(n, 0x100_0000_0000),
     Octet(n, 0x1_0000_0000), Octet(n, 0x100_0000), Octet(n, 0x1_0000), Octet(n, 0x100), Octet(n, 1)]
  }

  // The padded message up to its length field.
  function PadFront(m: seq<Byte>): (p: seq<Byte>)
    ensures |p| % 64 == 56
    ensures m <= p
    ensures |m| + 1 <= |p| <= |m| + 64
  {
    assert LeavesLengthField(|m|, ZeroBytes(|m|));
    m + [0x80] + Zeros(ZeroBytes(|m|))
  }

  function Pad(m: seq<Byte>): seq<Byte>
  {
    PadFront(m) + BigEndian64(BitCount(|m|))
  }

  // A block as sixteen big-endian words.
  function WordOf(b0: Byte, b1: Byte, b2: Byte, b3: Byte): Word
  {
    ((b0 as Word) << 24) | ((b1 as Word) << 16) | ((b2 as Word) << 8) | (b3 as Word)
  }

  function WordAt(block: seq<Byte>, t: nat): Word
    requires |block| == 64 && t < 16
  {
    WordOf(block[4 * t], block[4 * t + 1], block[4 * t + 2], block[4 * t + 3])
  }

  // Section 6.2.2, step 1.
  function NextWord(w16: Word, w15: Word, w7: Word, w2: Word): Word
  {
    Add(Add(Add(SmallSigma1(w2), w7), SmallSigma0(w15)), w16)
  }

  function W(block: seq<Byte>, t: nat): Word
    requires |block| == 64
  {
    if t < 16 then WordAt(block, t)
    else NextWord(W(block, t - 16), W(block, t - 15), W(block, t - 7), W(block, t - 2))
  }

  function Schedule(block: seq<Byte>): (w: seq<Word>)
    requires |block| == 64
    ensures |w| == ROUNDS
  {
    seq(ROUNDS, t requires 0 <= t < ROUNDS => W(block, t))
  }

  // Section 6.2.2, step 3.
  function Round(s: State, k: Word, w: Word): State
  {
    var t1 := Add(Add(Add(Add(s.h, BigSigma1(s.e)), Ch(s.e, s.f, s.g)), k), w);
    var t2 := Add(BigSigma0(s.a), Maj(s.a, s.b, s.c));
    State(Add(t1, t2), s.a, s.b, s.c, Add(s.d, t1), s.e, s.f, s.g)
  }

  function Rounds(s: State, w: seq<Word>, t: nat): State
    requires |w| == ROUNDS && t <= ROUNDS
  {
    if t == 0 then s else Round(Rounds(s, w, t - 1), RoundConstant(t - 1), w[t - 1])
  }

  // Section 6.2.2, step 4.
  function AddStates(x: State, y: State): State
  {
    State(Add(x.a, y.a), Add(x.b, y.b), Add(x.c, y.c), Add(x.d, y.d),
          Add(x.e, y.e), Add(x.f, y.f), Add(x.g, y.g), Add(x.h, y.h))
  }

  function Compress(s: State, block: seq<Byte>): State
    requires |block| == 64
  {
    AddStates(s, Rounds(s, Schedule(block), ROUNDS))
  }

  // Section 5.2.1: the message in blocks of 64 bytes; H(n) of section 6.2.2.
  function HashBlocks(m: seq<Byte>, n: nat): State
    requires 64 * n <= |m|
  {
    if n == 0 then IV else Compress(HashBlocks(m, n - 1), m[64 * (n - 1)..64 * n])
  }

  function ByteOf(w: Word, shift: nat): Byte
    requires shift <= 24
  {
    ((w >> shift) & 0xff) as Byte
  }

  function WordIn(s: State, i: nat): Word
    requires i < 8
  {
    match i
    case 0 => s.a
    case 1 => s.b
    case 2 => s.c
    case 3 => s.d
    case 4 => s.e
    case 5 => s.f
    case 6 => s.g
    case 7 => s.h
  }

  // The eight words one after the other, each most significant byte first.
  function StateBytes(s: State): (r: seq<Byte>)
    ensures |r| == 32
  {
    seq(32, i requires 0 <= i < 32 => ByteOf(WordIn(s, i / 4), 24 - 8 * (i % 4)))
  }

  function Sha256(m: seq<Byte>): (digest: seq<Byte>)
    ensures |digest| == 32
  {
    StateBytes(HashBlocks(Pad(m), |Pad(m)| / 64))
  }
}
