/** The incremental hash: a 64-byte buffer that is compressed in place whenever it fills. */
module Sha256Stream {
  import opened Bytes
  import opened Sha256

  const TWO_TO_64: nat := 0x1_0000_0000_0000_0000

  /** The hash value depends on the first `n` blocks only. */
  lemma {:induction false} ChainPrefix(m: seq<Byte>, p: seq<Byte>, n: nat)
    requires 64 * n <= |m| && 64 * n <= |p| && m[..64 * n] == p[..64 * n]
    ensures Chain(m, n) == Chain(p, n)
  {
    hide Compress;
    if n > 0 {
      assert m[..64 * (n - 1)] == m[..64 * n][..64 * (n - 1)] && p[..64 * (n - 1)] == p[..64 * n][..64 * (n - 1)];
      ChainPrefix(m, p, n - 1);
      assert BlockOf(m, n - 1) == m[..64 * n][64 * (n - 1)..] && BlockOf(p, n - 1) == p[..64 * n][64 * (n - 1)..];
    }
  }

  lemma ChainStep(m: seq<Byte>, n: nat)
    requires 64 * n + 64 <= |m|
    ensures Chain(m, n + 1) == Compress(Chain(m, n), BlockOf(m, n))
  {
    hide Compress;
  }

  /** The padded message: its length, and what stands where. */
  lemma PaddedAt(m: seq<Byte>, n: nat)
    requires 64 * n <= |m| < 64 * n + 64
    ensures |Padded(m)| == 64 * n + (if |m| < 64 * n + 56 then 64 else 128)
    ensures forall i :: 0 <= i < |m| ==> Padded(m)[i] == m[i]
    ensures Padded(m)[|m|] == 0x80
    ensures forall i :: |m| < i < |Padded(m)| - 8 ==> Padded(m)[i] == 0
    ensures forall i :: 0 <= i < 8 ==> Padded(m)[|Padded(m)| - 8 + i] == LengthByte(8 * |m|, i)
  {
    hide LengthByte;
    assert (55 - |m|) % 64 == if |m| < 64 * n + 56 then 64 * n + 55 - |m| else 64 * n + 119 - |m|;
  }

  lemma ChainNone(m: seq<Byte>)
    ensures Chain(m, 0) == INITIAL
  {
  }

  /** One more byte leaves the full blocks alone; the tail grows, and may fill a block. */
  lemma NextByte(m: seq<Byte>, byte: Byte, n: nat)
    requires 64 * n <= |m| < 64 * n + 64
    ensures Chain(m + [byte], n) == Chain(m, n) && (m + [byte])[64 * n..] == m[64 * n..] + [byte]
    ensures |m| + 1 == 64 * n + 64 ==> BlockOf(m + [byte], n) == m[64 * n..] + [byte]
  {
    hide Chain;
    assert (m + [byte])[..64 * n] == m[..64 * n];
    ChainPrefix(m, m + [byte], n);
  }

  /** A buffer that starts with the message's tail and the padding byte and goes on with zeros. */
  predicate TailPadded(m: seq<Byte>, n: nat, d: seq<Byte>, zeros: nat)
    requires 64 * n <= |m| < 64 * n + 64
  {
    var used := |m| - 64 * n;
    && |d| == 64 && d[..used] == m[64 * n..] && d[used] == 0x80
    && forall k :: used < k < zeros && k < 64 ==> d[k] == 0
  }

  predicate LengthStored(d: seq<Byte>, n: nat) {
    |d| == 64 && forall i :: 0 <= i < 8 ==> d[56 + i] == LengthByte(n, i)
  }

  /** With room for the length, the padded message ends in one more block. */
  lemma OneBlock(m: seq<Byte>, n: nat, d: seq<Byte>)
    requires 64 * n <= |m| < 64 * n + 56 && TailPadded(m, n, d, 56) && LengthStored(d, 8 * |m|)
    ensures |Padded(m)| == 64 * n + 64 && d == BlockOf(Padded(m), n)
  {
    hide LengthByte, Padded;
    PaddedAt(m, n);
    var p, base := Padded(m), 64 * n;
    forall k | 0 <= k < 64 ensures d[k] == p[base + k] {
      if k < |m| - base {
        assert d[..|m| - base][k] == m[base..][k];
      } else if k >= 56 {
        assert d[56 + (k - 56)] == LengthByte(8 * |m|, k - 56);
      }
    }
  }

  /** Without room, the padding byte and zeros end one block, and zeros and the length fill another. */
  lemma FirstOfTwo(m: seq<Byte>, n: nat, d: seq<Byte>)
    requires 64 * n + 56 <= |m| < 64 * n + 64 && TailPadded(m, n, d, 64)
    ensures |Padded(m)| == 64 * n + 128 && d == BlockOf(Padded(m), n)
  {
    hide LengthByte, Padded;
    PaddedAt(m, n);
    var p, base := Padded(m), 64 * n;
    forall k | 0 <= k < 64 ensures d[k] == p[base + k] {
      if k < |m| - base {
        assert d[..|m| - base][k] == m[base..][k];
      }
    }
  }

  lemma SecondOfTwo(m: seq<Byte>, n: nat, d: seq<Byte>)
    requires 64 * n + 56 <= |m| < 64 * n + 64 && LengthStored(d, 8 * |m|) && forall k :: 0 <= k < 56 ==> d[k] == 0
    ensures |Padded(m)| == 64 * n + 128 && d == BlockOf(Padded(m), n + 1)
  {
    hide LengthByte, Padded;
    PaddedAt(m, n);
    var p, base := Padded(m), 64 * n + 64;
    forall k | 0 <= k < 64 ensures d[k] == p[base + k] {
      if k >= 56 {
        assert d[56 + (k - 56)] == LengthByte(8 * |m|, k - 56);
      }
    }
  }

  lemma ChainPadded(m: seq<Byte>, n: nat)
    requires 64 * n <= |m| < 64 * n + 64
    ensures |m| <= |Padded(m)| && Chain(Padded(m), n) == Chain(m, n)
  {
    hide LengthByte, Padded, Chain;
    PaddedAt(m, n);
    assert m[..64 * n] == Padded(m)[..64 * n];
    ChainPrefix(m, Padded(m), n);
  }

  // ----- The schedule and the rounds, one step at a time -----

  lemma NoWords(block: Block)
    ensures Words(block, 0) == []
  {
  }

  lemma WordsStep(block: Block, t: nat)
    requires t < 64
    ensures Words(block, t + 1) == Words(block, t) + [NextWord(block, Words(block, t))]
  {
    hide NextWord;
  }

  lemma NextFrom(block: Block, w: seq<Word>)
    requires 16 <= |w| < 64
    ensures var t := |w|; NextWord(block, w) == Add(Add(Add(SmallSigma1(w[t - 2]), w[t - 7]), SmallSigma0(w[t - 15])), w[t - 16])
  {
    hide SmallSigma0, SmallSigma1, BigEndian, Add;
  }

  lemma NoRounds(v: Hash, w: seq<Word>)
    requires |w| == 64
    ensures Rounds(v, w, 0) == v
  {
  }

  lemma RoundsStep(v: Hash, w: seq<Word>, t: nat)
    requires t < |w| == 64
    ensures Rounds(v, w, t + 1) == Round(Rounds(v, w, t), K(t), w[t])
  {
    hide Round, K;
  }

  /** The count of bits goes on where it was after a wrap. */
  lemma BitsStep(n: nat)
    ensures (512 * n % TWO_TO_64 + 512) % TWO_TO_64 == 512 * (n + 1) % TWO_TO_64
  {
    var laps, rest := 512 * n / TWO_TO_64, 512 * n % TWO_TO_64;
    assert 512 * (n + 1) == TWO_TO_64 * laps + (rest + 512);
  }

  class Context {
    const state: array<Word>
    const data: array<Byte>
    var bitlen: nat
    var datalen: nat
    ghost var message: seq<Byte>
    ghost var blocks: nat

    predicate Shape() {
      state.Length == 8 && data.Length == 64
    }

    function Value(): Hash
      requires Shape()
      reads state
    {
      Hash(state[0], state[1], state[2], state[3], state[4], state[5], state[6], state[7])
    }

    /** The state is the hash value of the full blocks absorbed; the buffer holds the rest. */
    ghost predicate Valid()
      reads this, state, data
    {
      && Shape()
      && |message| == 64 * blocks + datalen && datalen < 64
      && Value() == Chain(message, blocks)
      && data[..datalen] == message[64 * blocks..]
      && bitlen == 512 * blocks % TWO_TO_64
    }

    constructor ()
      ensures Valid() && message == [] && fresh(state) && fresh(data)
    {
      hide Chain, INITIAL;
      state, data := new Word[8](_ => 0), new Byte[64](_ => 0);
      bitlen, datalen, message, blocks := 0, 0, [], 0;
      new;
      Load(INITIAL);
      ChainNone([]);
      assert data[..0] == [] == message[0..];
    }

    method Load(v: Hash)
      requires Shape()
      modifies state
      ensures Value() == v
    {
      state[0], state[1], state[2], state[3] := v.a, v.b, v.c, v.d;
      state[4], state[5], state[6], state[7] := v.e, v.f, v.g, v.h;
    }

    /** The schedule of the buffered block, word by word. */
    method Schedule() returns (m: array<Word>)
      requires Shape()
      ensures fresh(m) && m.Length == 64 && m[..] == Words(data[..], 64)
    {
      hide BigEndian, SmallSigma0, SmallSigma1, Words, Add;
      ghost var block: Block := data[..];
      m := new Word[64];
      var i := 0;
      assert Words(block, 0) == [] by { NoWords(block); }
      while i < 16
        invariant 0 <= i <= 16 && m[..i] == Words(block, i)
      {
        WordsStep(block, i);
        m[i] := BigEndian(data[4 * i], data[4 * i + 1], data[4 * i + 2], data[4 * i + 3]);
        i := i + 1;
      }
      while i < 64
        invariant 16 <= i <= 64 && m[..i] == Words(block, i)
      {
        WordsStep(block, i);
        NextFrom(block, m[..i]);
        m[i] := Add(Add(Add(SmallSigma1(m[i - 2]), m[i - 7]), SmallSigma0(m[i - 15])), m[i - 16]);
        i := i + 1;
      }
      assert m[..64] == m[..];
    }

    /** sha256_transform. */
    method Transform()
      requires Shape()
      modifies state
      ensures Value() == Compress(old(Value()), data[..])
    {
      hide Words, BigSigma0, BigSigma1, Ch, Maj, Rounds, K, Add;
      ghost var v0 := Value();
      var m := Schedule();
      ghost var w := m[..];
      var a, b, c, d := state[0], state[1], state[2], state[3];
      var e, f, g, h := state[4], state[5], state[6], state[7];
      assert Rounds(v0, w, 0) == v0 by { NoRounds(v0, w); }
      for i := 0 to 64
        invariant m[..] == w && Value() == v0
        invariant Hash(a, b, c, d, e, f, g, h) == Rounds(v0, w, i)
      {
        RoundsStep(v0, w, i);
        var t1 := Add(Add(Add(Add(h, BigSigma1(e)), Ch(e, f, g)), K(i)), m[i]);
        var t2 := Add(BigSigma0(a), Maj(a, b, c));
        h := g;
        g := f;
        f := e;
        e := Add(d, t1);
        d := c;
        c := b;
        b := a;
        a := Add(t1, t2);
      }
      state[0] := Add(state[0], a);
      state[1] := Add(state[1], b);
      state[2] := Add(state[2], c);
      state[3] := Add(state[3], d);
      state[4] := Add(state[4], e);
      state[5] := Add(state[5], f);
      state[6] := Add(state[6], g);
      state[7] := Add(state[7], h);
    }

    /** One byte of sha256_update's loop. */
    method Absorb(byte: Byte)
      requires Valid()
      modifies this, state, data
      ensures Valid() && message == old(message) + [byte]
    {
      hide Compress, Add, Chain, BigEndian, NextWord, Words, Rounds;
      NextByte(message, byte, blocks);
      ghost var tail := data[..datalen];
      data[datalen] := byte;
      datalen := datalen + 1;
      assert data[..datalen] == tail + [byte];
      message := message + [byte];
      if datalen == 64 {
        assert data[..] == data[..datalen];
        NextBlock();
      }
    }

    /** What it does when the buffer is full. */
    method NextBlock()
      requires Shape() && datalen == 64 && |message| == 64 * blocks + 64 && data[..] == BlockOf(message, blocks)
      requires Value() == Chain(message, blocks) && bitlen == 512 * blocks % TWO_TO_64
      modifies this, state
      ensures Valid() && message == old(message)
    {
      hide Compress, Add, Chain, BigEndian, NextWord, Words, Rounds;
      ChainStep(message, blocks);
      BitsStep(blocks);
      Transform();
      blocks, bitlen, datalen := blocks + 1, (bitlen + 512) % TWO_TO_64, 0;
      assert data[..datalen] == [] == message[64 * blocks..];
    }

    /** sha256_update. */
    method Update(bytes: seq<Byte>)
      requires Valid()
      modifies this, state, data
      ensures Valid() && message == old(message) + bytes
    {
      hide Chain;
      for i := 0 to |bytes|
        invariant Valid() && message == old(message) + bytes[..i]
      {
        Absorb(bytes[i]);
        assert bytes[..i + 1] == bytes[..i] + [bytes[i]];
      }
      assert bytes[..|bytes|] == bytes;
    }

    /** Fill the buffer with zeros from `from` on. */
    method Clear(from: nat, to: nat)
      requires Shape() && from <= to <= 64
      modifies data
      ensures forall k :: 0 <= k < 64 ==> data[k] == if from <= k < to then 0 else old(data[k])
    {
      for i := from to to
        invariant forall k :: 0 <= k < 64 ==> data[k] == if from <= k < i then 0 else old(data[k])
      {
        data[i] := 0;
      }
    }

    /** The padding byte, and zeros up to where the length goes or to the buffer's end. */
    method Pad()
      requires Valid()
      modifies data
      ensures TailPadded(message, blocks, data[..], if datalen < 56 then 56 else 64)
    {
      hide Chain;
      ghost var tail := data[..datalen];
      data[datalen] := 0x80;
      assert data[..datalen] == tail;
      Clear(datalen + 1, if datalen < 56 then 56 else 64);
      assert data[..datalen] == tail;
    }

    /** The length in bits, big-endian, in the last eight bytes. */
    method StoreLength()
      requires Shape() && bitlen < TWO_TO_64
      modifies data
      ensures data[..56] == old(data[..56]) && LengthStored(data[..], bitlen)
    {
      hide LengthByte;
      data[63] := LengthByte(bitlen, 7);
      data[62] := LengthByte(bitlen, 6);
      data[61] := LengthByte(bitlen, 5);
      data[60] := LengthByte(bitlen, 4);
      data[59] := LengthByte(bitlen, 3);
      data[58] := LengthByte(bitlen, 2);
      data[57] := LengthByte(bitlen, 1);
      data[56] := LengthByte(bitlen, 0);
    }

    /** The padding, and a block of its own when the length no longer fits behind it. */
    method PadBlocks(ghost p: seq<Byte>) returns (ghost n: nat)
      requires Valid() && p == Padded(message)
      modifies state, data
      ensures 64 * n <= |p| && Value() == Chain(p, n)
      ensures if datalen < 56 then n == blocks && TailPadded(message, n, data[..], 56)
              else n == blocks + 1 && forall k :: 0 <= k < 56 ==> data[k] == 0
    {
      hide Compress, Chain, Add, LengthByte, Padded, LengthStored, TailPadded;
      n := blocks;
      ChainPadded(message, n);
      Pad();
      if datalen >= 56 {
        FirstOfTwo(message, n, data[..]);
        ChainStep(p, n);
        Transform();
        Clear(0, 56);
        n := n + 1;
      }
    }

    /** sha256_final: the digest of everything absorbed. */
    method Finish() returns (digest: seq<Byte>)
      requires Valid() && 8 * |message| < TWO_TO_64
      modifies this, state, data
      ensures digest == Sha256Of(message) && message == old(message)
    {
      hide Compress, Chain, Add, LengthByte, Padded, LengthStored, TailPadded, Digest, WordBytes;
      ghost var p := Padded(message);
      ghost var n := PadBlocks(p);
      bitlen := (bitlen + datalen * 8) % TWO_TO_64;
      FinishBlock(p, n);
      digest := Digest(Value());
    }

    /** The length and the last compression. */
    method FinishBlock(ghost p: seq<Byte>, ghost n: nat)
      requires Shape() && |message| == 64 * blocks + datalen && datalen < 64
      requires bitlen == 8 * |message| < TWO_TO_64 && p == Padded(message) && 64 * n <= |p| && Value() == Chain(p, n)
      requires if datalen < 56 then n == blocks && TailPadded(message, n, data[..], 56)
               else n == blocks + 1 && forall k :: 0 <= k < 56 ==> data[k] == 0
      modifies state, data
      ensures |p| == 64 * n + 64 && Value() == Chain(p, n + 1)
    {
      hide Compress, Chain, Add, LengthByte, Padded, LengthStored;
      ghost var before := data[..];
      StoreLength();
      assert forall k :: 0 <= k < 56 ==> data[k] == data[..56][k] == before[k];
      if datalen < 56 {
        assert data[..datalen] == before[..datalen];
        OneBlock(message, n, data[..]);
      } else {
        SecondOfTwo(message, blocks, data[..]);
      }
      ChainStep(p, n);
      Transform();
    }
  }

  function Flatten(chunks: seq<seq<Byte>>): seq<Byte> {
    if chunks == [] then [] else Flatten(chunks[..|chunks| - 1]) + chunks[|chunks| - 1]
  }

  /** However a message is split into updates, the digest is the hash of the whole. */
  method HashChunks(chunks: seq<seq<Byte>>) returns (digest: seq<Byte>)
    requires 8 * |Flatten(chunks)| < TWO_TO_64
    ensures digest == Sha256Of(Flatten(chunks))
  {
    hide Sha256Of, Chain, Context.Valid;
    var ctx := new Context();
    for i := 0 to |chunks|
      invariant fresh(ctx) && fresh(ctx.state) && fresh(ctx.data) && ctx.Valid() && ctx.message == Flatten(chunks[..i])
    {
      ctx.Update(chunks[i]);
      assert chunks[..i + 1][..i] == chunks[..i];
    }
    assert chunks[..|chunks|] == chunks;
    digest := ctx.Finish();
  }
}
