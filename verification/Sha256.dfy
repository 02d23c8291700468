/** SHA-256 as FIPS 180-4 defines it: the constants (4.2.2), the functions (4.1.2), padding (5.1.1),
    parsing (5.2.1), the initial value (5.3.3) and the computation (6.2.2), over bytes. */
module Sha256 {
  import opened Bytes

  type Word = bv32

  /** The round constants, eight to a row. */
  const CONSTANTS: seq<seq<Word>> := [
    [0x428a2f98, 0x71374491, 0xb5c0fbcf, 0xe9b5dba5, 0x3956c25b, 0x59f111f1, 0x923f82a4, 0xab1c5ed5],
    [0xd807aa98, 0x12835b01, 0x243185be, 0x550c7dc3, 0x72be5d74, 0x80deb1fe, 0x9bdc06a7, 0xc19bf174],
    [0xe49b69c1, 0xefbe4786, 0x0fc19dc6, 0x240ca1cc, 0x2de92c6f, 0x4a7484aa, 0x5cb0a9dc, 0x76f988da],
    [0x983e5152, 0xa831c66d, 0xb00327c8, 0xbf597fc7, 0xc6e00bf3, 0xd5a79147, 0x06ca6351, 0x14292967],
    [0x27b70a85, 0x2e1b2138, 0x4d2c6dfc, 0x53380d13, 0x650a7354, 0x766a0abb, 0x81c2c92e, 0x92722c85],
    [0xa2bfe8a1, 0xa81a664b, 0xc24b8b70, 0xc76c51a3, 0xd192e819, 0xd6990624, 0xf40e3585, 0x106aa070],
    [0x19a4c116, 0x1e376c08, 0x2748774c, 0x34b0bcb5, 0x391c0cb3, 0x4ed8aa4a, 0x5b9cca4f, 0x682e6ff3],
    [0x748f82ee, 0x78a5636f, 0x84c87814, 0x8cc70208, 0x90befffa, 0xa4506ceb, 0xbef9a3f7, 0xc67178f2]
  ]

  function K(t: nat): Word
    requires t < 64
  {
    assert |CONSTANTS| == 8 && forall i :: 0 <= i < 8 ==> |CONSTANTS[i]| == 8;
    CONSTANTS[t / 8][t % 8]
  }

  datatype Hash = Hash(a: Word, b: Word, c: Word, d: Word, e: Word, f: Word, g: Word, h: Word)

  const INITIAL := Hash(0x6a09e667, 0xbb67ae85, 0x3c6ef372, 0xa54ff53a, 0x510e527f, 0x9b05688c, 0x1f83d9ab, 0x5be0cd19)

  // ----- Operations on words (sections 2.2.2 and 3.2) -----

  function Add(x: Word, y: Word): Word {
    x + y
  }

  function Shr(x: Word, n: Word): Word
    requires n < 32
  {
    x >> n
  }

  function RotR(x: Word, n: Word): Word
    requires 0 < n < 32
  {
    (x >> n) | (x << (32 - n))
  }

  // ----- Functions (section 4.1.2) -----

  function Ch(x: Word, y: Word, z: Word): Word {
    (x & y) ^ (!x & z)
  }

  function Maj(x: Word, y: Word, z: Word): Word {
    (x & y) ^ (x & z) ^ (y & z)
  }

  function BigSigma0(x: Word): Word {
    RotR(x, 2) ^ RotR(x, 13) ^ RotR(x, 22)
  }

  function BigSigma1(x: Word): Word {
    RotR(x, 6) ^ RotR(x, 11) ^ RotR(x, 25)
  }

  function SmallSigma0(x: Word): Word {
    RotR(x, 7) ^ RotR(x, 18) ^ Shr(x, 3)
  }

  function SmallSigma1(x: Word): Word {
    RotR(x, 17) ^ RotR(x, 19) ^ Shr(x, 10)
  }

  function BigEndian(a: Byte, b: Byte, c: Byte, d: Byte): Word {
    (a as bv32 << 24) | (b as bv32 << 16) | (c as bv32 << 8) | d as bv32
  }

  type Block = s: seq<Byte> | |s| == 64 witness seq(64, _ => 0)

  /** The word that follows `w` in the message schedule of a block. */
  function NextWord(block: Block, w: seq<Word>): Word
    requires |w| < 64
  {
    var t := |w|;
    if t < 16 then BigEndian(block[4 * t], block[4 * t + 1], block[4 * t + 2], block[4 * t + 3])
    else Add(Add(Add(SmallSigma1(w[t - 2]), w[t - 7]), SmallSigma0(w[t - 15])), w[t - 16])
  }

  /** The first `t` words of the message schedule. */
  function Words(block: Block, t: nat): (w: seq<Word>)
    requires t <= 64
    ensures |w| == t
  {
    if t == 0 then [] else
      var w := Words(block, t - 1);
      w + [NextWord(block, w)]
  }

  function Round(v: Hash, k: Word, w: Word): Hash {
    var t1 := Add(Add(Add(Add(v.h, BigSigma1(v.e)), Ch(v.e, v.f, v.g)), k), w);
    var t2 := Add(BigSigma0(v.a), Maj(v.a, v.b, v.c));
    Hash(Add(t1, t2), v.a, v.b, v.c, Add(v.d, t1), v.e, v.f, v.g)
  }

  /** The working variables after `t` rounds on the schedule `w`. */
  function Rounds(v: Hash, w: seq<Word>, t: nat): Hash
    requires t <= |w| == 64
  {
    if t == 0 then v else Round(Rounds(v, w, t - 1), K(t - 1), w[t - 1])
  }

  function Plus(x: Hash, y: Hash): Hash {
    Hash(Add(x.a, y.a), Add(x.b, y.b), Add(x.c, y.c), Add(x.d, y.d), Add(x.e, y.e), Add(x.f, y.f), Add(x.g, y.g), Add(x.h, y.h))
  }

  function Compress(v: Hash, block: Block): Hash {
    Plus(v, Rounds(v, Words(block, 64), 64))
  }

  function BlockOf(m: seq<Byte>, i: nat): Block
    requires 64 * i + 64 <= |m|
  {
    m[64 * i..64 * i + 64]
  }

  /** The hash value after the first `n` blocks. */
  function Chain(m: seq<Byte>, n: nat): Hash
    requires 64 * n <= |m|
  {
    if n == 0 then INITIAL else Compress(Chain(m, n - 1), BlockOf(m, n - 1))
  }

  function Zeros(n: nat): (z: seq<Byte>)
    ensures |z| == n && forall i :: 0 <= i < n ==> z[i] == 0
  {
    seq(n, _ => 0)
  }

  function Unit(i: nat): nat
    requires i < 8
    ensures Unit(i) > 0
  {
    [0x100_0000_0000_0000, 0x1_0000_0000_0000, 0x100_0000_0000, 0x1_0000_0000, 0x100_0000, 0x1_0000, 0x100, 1][i]
  }

  /** Byte `i` of the big-endian 64-bit encoding of `n`. */
  function LengthByte(n: nat, i: nat): Byte
    requires i < 8
  {
    n / Unit(i) % 0x100
  }

  function Length64(n: nat): seq<Byte> {
    seq(8, i requires 0 <= i < 8 => LengthByte(n, i))
  }

  /** One bit, the fewest zeros that fit, and the length in bits. */
  function Padded(m: seq<Byte>): (p: seq<Byte>)
    ensures |p| % 64 == 0
  {
    m + [0x80] + Zeros((55 - |m|) % 64) + Length64(8 * |m|)
  }

  function WordBytes(w: Word): seq<Byte> {
    var n := w as nat;
    [n / 0x100_0000 % 0x100, n / 0x1_0000 % 0x100, n / 0x100 % 0x100, n % 0x100]
  }

  function Digest(v: Hash): (d: seq<Byte>)
    ensures |d| == 32
  {
    WordBytes(v.a) + WordBytes(v.b) + WordBytes(v.c) + WordBytes(v.d)
    + WordBytes(v.e) + WordBytes(v.f) + WordBytes(v.g) + WordBytes(v.h)
  }

  /** The hash of a message. */
  function Sha256Of(m: seq<Byte>): (d: seq<Byte>)
    ensures |d| == 32
  {
    var p := Padded(m);
    Digest(Chain(p, |p| / 64))
  }
}
