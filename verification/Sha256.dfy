/** The streaming SHA-256 context, updated in place, and its agreement with the
    one-shot definition for every way of cutting the message into updates. */
module Sha256 {
  import opened Sha256Spec

  lemma BitCountAdds(m: nat, n: nat)
    ensures (BitCount(m) + 8 * n) % 0x1_0000_0000_0000_0000 == BitCount(m + n)
  {
  }

  lemma BigEndian64Bytes(n: nat, bytes: seq<Byte>)
    requires |bytes| == 8
    requires bytes[0] == Octet(n, 0x100_0000_0000_0000) && bytes[1] == Octet(n, 0x1_0000_0000_0000)
    requires bytes[2] == Octet(n, 0x100_0000_0000) && bytes[3] == Octet(n, 0x1_0000_0000)
    requires bytes[4] == Octet(n, 0x100_0000) && bytes[5] == Octet(n, 0x1_0000)
    requires bytes[6] == Octet(n, 0x100) && bytes[7] == Octet(n, 1)
    ensures bytes == BigEndian64(n)
  {
  }

  // A chaining value depends on no byte after its blocks.
  lemma {:induction false} HashBlocksPrefix(m: seq<Byte>, m': seq<Byte>, n: nat)
    requires 64 * n <= |m| && 64 * n <= |m'|
    requires m[..64 * n] == m'[..64 * n]
    ensures HashBlocks(m, n) == HashBlocks(m', n)
  {
    hide Compress;
    if n > 0 {
      assert m[..64 * (n - 1)] == m[..64 * n][..64 * (n - 1)];
      assert m'[..64 * (n - 1)] == m'[..64 * n][..64 * (n - 1)];
      HashBlocksPrefix(m, m', n - 1);
      assert m[64 * (n - 1)..64 * n] == m[..64 * n][64 * (n - 1)..];
      assert m'[64 * (n - 1)..64 * n] == m'[..64 * n][64 * (n - 1)..];
    }
  }

  lemma HashNextBlock(m: seq<Byte>, m': seq<Byte>, n: nat)
    requires 64 * n <= |m| && 64 * (n + 1) <= |m'|
    requires m[..64 * n] == m'[..64 * n]
    ensures HashBlocks(m', n + 1) == Compress(HashBlocks(m, n), m'[64 * n..64 * (n + 1)])
  {
    hide Compress;
    HashBlocksPrefix(m, m', n);
  }

  // What follows the complete blocks of the message: one block that still has room
  // for the length, or a full block and 56 zero bytes.
  lemma PadFrontTail(m: seq<Byte>)
    ensures var n := |m| / 64; var tail := m[64 * n..];
            PadFront(m)[64 * n..] ==
              if |tail| < 56 then tail + [0x80] + Zeros(55 - |tail|)
              else tail + [0x80] + Zeros(63 - |tail|) + Zeros(56)
  {
  }

  lemma PadSplits(m: seq<Byte>, last: seq<Byte>)
    requires |last| == 64
    requires last[..56] == PadFront(m)[64 * (|PadFront(m)| / 64)..]
    requires last[56..] == BigEndian64(BitCount(|m|))
    ensures var n := |PadFront(m)| / 64;
            && |Pad(m)| == 64 * (n + 1)
            && Pad(m)[..64 * n] == PadFront(m)[..64 * n]
            && Pad(m)[64 * n..64 * (n + 1)] == last
  {
  }

  lemma ScheduleStep(block: seq<Byte>, i: nat)
    requires |block| == 64
    ensures W(block, i) == if i < 16 then WordOf(block[4 * i], block[4 * i + 1], block[4 * i + 2], block[4 * i + 3])
                           else NextWord(W(block, i - 16), W(block, i - 15), W(block, i - 7), W(block, i - 2))
  {
    hide NextWord, WordOf;
  }

  class Sha256Ctx {
    const data: array<Byte>
    const state: array<Word>
    var datalen: nat
    var bitlen: nat
    ghost var message: seq<Byte>  // everything absorbed since Init

    ghost predicate Shape()
      reads this
    {
      data.Length == 64 && state.Length == 8
    }

    function Chaining(): State
      requires state.Length == 8
      reads state
    {
      State(state[0], state[1], state[2], state[3], state[4], state[5], state[6], state[7])
    }

    // The blocks of the message that are complete are in the chaining value and in the
    // bit count, and the rest of the message is the front of the buffer.
    ghost predicate Valid()
      reads this, data, state
    {
      && Shape()
      && var blocks := |message| / 64;
      && datalen == |message| - 64 * blocks
      && data[..datalen] == message[64 * blocks..]
      && bitlen == BitCount(64 * blocks)
      && Chaining() == HashBlocks(message, blocks)
    }

    constructor ()
      ensures Shape() && fresh(data) && fresh(state)
    {
      data := new Byte[64];
      state := new Word[8];
      datalen, bitlen, message := 0, 0, [];
    }

    method Init()
      requires Shape()
      modifies this, state
      ensures Valid() && message == []
    {
      datalen, bitlen := 0, 0;
      state[0], state[1], state[2], state[3] := 0x6a09e667, 0xbb67ae85, 0x3c6ef372, 0xa54ff53a;
      state[4], state[5], state[6], state[7] := 0x510e527f, 0x9b05688c, 0x1f83d9ab, 0x5be0cd19;
      message := [];
    }

    method Transform()
      requires Shape()
      modifies state
      ensures Chaining() == Compress(old(Chaining()), data[..])
    {
      hide Rounds, Schedule, Add;
      var m := FillSchedule();
      var s := Permute(m);
      state[0] := Add(state[0], s.a);
      state[1] := Add(state[1], s.b);
      state[2] := Add(state[2], s.c);
      state[3] := Add(state[3], s.d);
      state[4] := Add(state[4], s.e);
      state[5] := Add(state[5], s.f);
      state[6] := Add(state[6], s.g);
      state[7] := Add(state[7], s.h);
    }

    // The two loops that fill m in Transform.
    method FillSchedule() returns (m: array<Word>)
      requires Shape()
      ensures fresh(m) && m[..] == Schedule(data[..])
    {
      hide W, NextWord, WordOf;
      m := new Word[64];
      for i := 0 to 16
        invariant forall t :: 0 <= t < i ==> m[t] == W(data[..], t)
      {
        var j := 4 * i;
        ScheduleStep(data[..], i);
        m[i] := WordOf(data[j], data[j + 1], data[j + 2], data[j + 3]);
      }
      for i := 16 to 64
        invariant forall t :: 0 <= t < i ==> m[t] == W(data[..], t)
      {
        ScheduleStep(data[..], i);
        m[i] := NextWord(m[i - 16], m[i - 15], m[i - 7], m[i - 2]);
      }
    }

    // The loop of rounds in Transform: the working variables a..h at its end.
    method Permute(m: array<Word>) returns (s: State)
      requires Shape() && m.Length == 64
      ensures s == Rounds(Chaining(), m[..], ROUNDS)
    {
      hide Add, RoundConstant, BigSigma0, BigSigma1, Ch, Maj;
      var a, b, c, d := state[0], state[1], state[2], state[3];
      var e, f, g, h := state[4], state[5], state[6], state[7];
      for i := 0 to 64
        invariant State(a, b, c, d, e, f, g, h) == Rounds(Chaining(), m[..], i)
      {
        var t1 := Add(Add(Add(Add(h, BigSigma1(e)), Ch(e, f, g)), RoundConstant(i)), m[i]);
        var t2 := Add(BigSigma0(a), Maj(a, b, c));
        h := g;
        g := f;
        f := e;
        e := Add(d, t1);
        d := c;
        c := b;
        b := a;
        a := Add(t1, t2);
      }
      s := State(a, b, c, d, e, f, g, h);
    }

    // The source counts with a 32-bit `i` up to a 64-bit `len`, so a longer call does
    // not return.
    method Update(bytes: array<Byte>, len: nat)
      requires Valid() && len <= bytes.Length && len < 0x1_0000_0000
      requires bytes != data
      modifies this, data, state
      ensures Valid() && message == old(message) + old(bytes[..len])
    {
      hide Valid;
      for i := 0 to len
        invariant Valid() && message == old(message) + bytes[..i]
        invariant bytes[..] == old(bytes[..])
      {
        Absorb(bytes[i]);
        assert bytes[..i + 1] == bytes[..i] + [bytes[i]];
      }
    }

    // The body of the loop in Update.
    method Absorb(byte: Byte)
      requires Valid()
      modifies this, data, state
      ensures Valid() && message == old(message) + [byte]
    {
      hide HashBlocks, Compress, BitCount;
      ghost var n := |message| / 64;
      ghost var next := message + [byte];
      assert next[..64 * n] == message[..64 * n];
      data[datalen] := byte;
      datalen := datalen + 1;
      assert data[..datalen] == next[64 * n..];
      if datalen == 64 {
        assert |next| == 64 * (n + 1);
        assert data[..] == data[..64] && next[64 * n..] == next[64 * n..64 * (n + 1)];
        Transform();
        bitlen := (bitlen + 512) % 0x1_0000_0000_0000_0000;
        datalen := 0;
        BitCountAdds(64 * n, 64);
        HashNextBlock(message, next, n);
      } else {
        HashBlocksPrefix(message, next, n);
      }
      message := next;
    }

    // The first half of sha256_final: puts 0x80 and zeros after the buffered bytes, and
    // compresses the buffer when they leave no room for the length.
    method PadBuffer()
      requires Valid()
      modifies data, state
      ensures data[..56] == PadFront(message)[64 * (|PadFront(message)| / 64)..]
      ensures Chaining() == HashBlocks(PadFront(message), |PadFront(message)| / 64)
    {
      hide HashBlocks, Compress, BitCount, PadFront;
      ghost var n := |message| / 64;
      ghost var front := PadFront(message);
      assert front[..64 * n] == message[..64 * n];
      PadFrontTail(message);
      if datalen < 56 {
        PutPadding(56);
        HashBlocksPrefix(message, front, n);
      } else {
        PutPadding(64);
        assert data[..] == data[..64] == front[64 * n..64 * (n + 1)];
        Transform();
        HashNextBlock(message, front, n);
        forall j | 0 <= j < 56 {
          data[j] := 0;
        }
        assert data[..56] == front[64 * (n + 1)..];
      }
    }

    // Puts 0x80 after the buffered bytes and zeros up to `limit`.
    method PutPadding(limit: nat)
      requires Shape() && datalen < limit <= 64
      modifies data
      ensures data[..limit] == old(data[..datalen]) + [0x80] + Zeros(limit - datalen - 1)
    {
      var i := datalen;
      data[i] := 0x80;
      i := i + 1;
      while i < limit
        invariant datalen < i <= limit
        invariant data[..i] == old(data[..datalen]) + [0x80] + Zeros(i - datalen - 1)
      {
        data[i] := 0x00;
        i := i + 1;
      }
    }

    method StoreLength()
      requires Shape()
      modifies data
      ensures data[..56] == old(data[..56])
      ensures data[56..] == BigEndian64(bitlen)
    {
      hide Octet, BigEndian64;
      data[63] := Octet(bitlen, 1);
      data[62] := Octet(bitlen, 0x100);
      data[61] := Octet(bitlen, 0x1_0000);
      data[60] := Octet(bitlen, 0x100_0000);
      data[59] := Octet(bitlen, 0x1_0000_0000);
      data[58] := Octet(bitlen, 0x100_0000_0000);
      data[57] := Octet(bitlen, 0x1_0000_0000_0000);
      data[56] := Octet(bitlen, 0x100_0000_0000_0000);
      BigEndian64Bytes(bitlen, data[56..]);
    }

    // sha256_final up to its closing loop.
    method Finish()
      requires Valid()
      modifies this`bitlen, data, state
      ensures Chaining() == HashBlocks(Pad(message), |Pad(message)| / 64)
    {
      hide HashBlocks, Compress, PadFront, BigEndian64, BitCount;
      ghost var front := PadFront(message);
      ghost var n := |front| / 64;
      PadBuffer();
      bitlen := (bitlen + datalen * 8) % 0x1_0000_0000_0000_0000;
      BitCountAdds(64 * (|message| / 64), datalen);
      StoreLength();
      PadSplits(message, data[..]);
      Transform();
      HashNextBlock(front, Pad(message), n);
    }

    method Final(hash: array<Byte>)
      requires Valid() && hash.Length >= 32
      requires hash != data
      modifies this`bitlen, data, state, hash
      ensures hash[..32] == Sha256(message)
      ensures hash[32..] == old(hash[32..])
    {
      hide HashBlocks, StateBytes, Pad;
      Finish();
      WriteDigest(hash);
    }

    // The closing loop of sha256_final: the words of the state, most significant byte first.
    method WriteDigest(hash: array<Byte>)
      requires Shape() && hash.Length >= 32
      requires hash != data
      modifies hash
      ensures hash[..32] == StateBytes(Chaining())
      ensures hash[32..] == old(hash[32..])
    {
      hide ByteOf, StateBytes;
      var s := Chaining();
      for i := 0 to 4
        invariant forall w, j {:trigger DigestByte(s, w, j)} ::
                    0 <= w < 8 && 0 <= j < i ==> hash[4 * w + j] == DigestByte(s, w, j)
        invariant hash[32..] == old(hash[32..])
      {
        PutColumn(hash, i, s);
      }
      DigestBytes(s, hash[..32]);
    }
  }

  ghost function DigestByte(s: State, w: nat, j: nat): Byte
    requires w < 8 && j < 4
  {
    ByteOf(WordIn(s, w), 24 - 8 * j)
  }

  lemma DigestBytes(s: State, bytes: seq<Byte>)
    requires |bytes| == 32
    requires forall w, j {:trigger DigestByte(s, w, j)} ::
               0 <= w < 8 && 0 <= j < 4 ==> bytes[4 * w + j] == DigestByte(s, w, j)
    ensures bytes == StateBytes(s)
  {
    hide ByteOf, WordIn;
    forall k | 0 <= k < 32
      ensures bytes[k] == StateBytes(s)[k]
    {
      var w, j := k / 4, k % 4;
      assert bytes[4 * w + j] == DigestByte(s, w, j);
    }
  }

  // The body of that loop: one byte of each word.
  method PutColumn(hash: array<Byte>, i: nat, s: State)
    requires hash.Length >= 32 && i < 4
    modifies hash
    ensures forall w {:trigger DigestByte(s, w, i)} :: 0 <= w < 8 ==> hash[4 * w + i] == DigestByte(s, w, i)
    ensures forall k :: 0 <= k < hash.Length && (k >= 32 || k % 4 != i) ==> hash[k] == old(hash[k])
  {
    hide ByteOf;
    PutFour(hash, i, 24 - i * 8, s.a, s.b, s.c, s.d);
    PutFour(hash, i + 16, 24 - i * 8, s.e, s.f, s.g, s.h);
  }

  // Four of its eight assignments.
  method PutFour(hash: array<Byte>, at: nat, shift: nat, w0: Word, w1: Word, w2: Word, w3: Word)
    requires at + 12 < hash.Length && shift <= 24
    modifies hash
    ensures hash[at] == ByteOf(w0, shift) && hash[at + 4] == ByteOf(w1, shift)
    ensures hash[at + 8] == ByteOf(w2, shift) && hash[at + 12] == ByteOf(w3, shift)
    ensures forall k :: 0 <= k < hash.Length && k !in {at, at + 4, at + 8, at + 12} ==> hash[k] == old(hash[k])
  {
    hide ByteOf;
    hash[at] := ByteOf(w0, shift);
    hash[at + 4] := ByteOf(w1, shift);
    hash[at + 8] := ByteOf(w2, shift);
    hash[at + 12] := ByteOf(w3, shift);
  }

  function Concat(chunks: seq<seq<Byte>>): seq<Byte>
  {
    if chunks == [] then [] else Concat(chunks[..|chunks| - 1]) + chunks[|chunks| - 1]
  }

  // sha256_init, one sha256_update for each chunk, sha256_final.
  method Digest(chunks: seq<seq<Byte>>) returns (digest: seq<Byte>)
    requires forall i :: 0 <= i < |chunks| ==> |chunks[i]| < 0x1_0000_0000
    ensures digest == Sha256(Concat(chunks))
  {
    hide Sha256Ctx.Valid, Sha256;
    var ctx := new Sha256Ctx();
    ctx.Init();
    for i := 0 to |chunks|
      invariant ctx.Valid() && fresh(ctx) && fresh(ctx.data) && fresh(ctx.state)
      invariant ctx.message == Concat(chunks[..i])
    {
      var chunk := chunks[i];
      var bytes := new Byte[|chunk|](j requires 0 <= j < |chunk| => chunk[j]);
      ctx.Update(bytes, |chunk|);
      assert bytes[..|chunk|] == chunk;
      assert chunks[..i + 1][..i] == chunks[..i];
    }
    assert chunks[..|chunks|] == chunks;
    var hash := new Byte[32];
    ctx.Final(hash);
    digest := hash[..32];
  }
}
