/** What the functions of SHA-256 do to the bits of their words (FIPS 180-4, sections 3.2 and 4.1.2). */
module Sha256Bits {
  import opened Bytes
  import opened Sha256

  /** Rotating by one bit puts the lowest bit on top and moves the others down. */
  lemma RotROne(x: Word)
    ensures RotR(x, 1) & 0x7fff_ffff == x >> 1 && RotR(x, 1) >> 31 == x & 1
  {
  }

  /** Rotating by `n` is rotating by one bit `n` times. */
  lemma RotRStep(x: Word, n: Word)
    requires 0 < n < 31
    ensures RotR(x, n + 1) == RotR(RotR(x, n), 1)
  {
  }

  /** Ch takes the bits of `y` where `x` has ones and those of `z` where it has zeros. */
  lemma Choice(x: Word, y: Word, z: Word)
    ensures Ch(x, y, z) & x == y & x && Ch(x, y, z) & !x == z & !x
  {
  }

  /** Maj takes the bits on which `x` and `y` agree, and those of `z` where they differ. */
  lemma Majority(x: Word, y: Word, z: Word)
    ensures Maj(x, y, z) & !(x ^ y) == x & !(x ^ y) && Maj(x, y, z) & (x ^ y) == z & (x ^ y)
  {
  }

  /** The most significant byte of a word comes first (section 3.1). */
  lemma FirstExampleWords()
    ensures BigEndian(0x61, 0x62, 0x63, 0x80) == 0x61626380 && BigEndian(0, 0, 0, 0) == 0 && BigEndian(0, 0, 0, 24) == 24
  {
  }

  /** The first of four bytes becomes the top byte of a word, and so on down. */
  lemma WordOfBytes(a: Byte, b: Byte, c: Byte, d: Byte)
    ensures var w := BigEndian(a, b, c, d);
            w >> 24 == a as bv32 && (w >> 16) & 0xff == b as bv32 && (w >> 8) & 0xff == c as bv32 && w & 0xff == d as bv32
  {
    ByteIsSmall(a);
    ByteIsSmall(b);
    ByteIsSmall(c);
    ByteIsSmall(d);
    Shifts(a as bv32, b as bv32, c as bv32, d as bv32);
  }

  lemma ByteIsSmall(a: Byte)
    ensures a as bv32 < 0x100
  {
  }

  lemma Shifts(a: Word, b: Word, c: Word, d: Word)
    requires a < 0x100 && b < 0x100 && c < 0x100 && d < 0x100
    ensures var w := (a << 24) | (b << 16) | (c << 8) | d;
            w >> 24 == a && (w >> 16) & 0xff == b && (w >> 8) & 0xff == c && w & 0xff == d
  {
  }

  /** The number that a sequence of bytes writes with its top byte first. */
  function Number(b: seq<Byte>): nat {
    if b == [] then 0 else Number(b[..|b| - 1]) * 0x100 + b[|b| - 1]
  }

  /** Dividing by 256 more is dividing once more, and the remainder is the next byte. */
  lemma NextDigit(n: nat, k: nat)
    requires k > 0
    ensures n / k == n / (k * 0x100) * 0x100 + n / k % 0x100
  {
    var q, p := n / k, n / k / 0x100;
    assert n == k * q + n % k && q == 0x100 * p + q % 0x100;
    Quotient(n, k, p, q % 0x100, n % k);
  }

  lemma Quotient(n: nat, k: nat, p: nat, s: nat, r: nat)
    requires n == k * (0x100 * p + s) + r && s < 0x100 && r < k
    ensures n / (k * 0x100) == p
  {
    Spread(k, p, s);
    Grows(k, s, 0x100);
    Unique(n, k * 0x100, p, k * s + r);
  }

  lemma Spread(k: nat, p: nat, s: nat)
    ensures k * (0x100 * p + s) == k * 0x100 * p + k * s
  {
  }

  lemma Unique(n: nat, d: nat, p: nat, rest: nat)
    requires n == d * p + rest && rest < d
    ensures n / d == p
  {
    var q := n / d;
    assert n == d * q + n % d;
    Grows(d, q, p);
    Grows(d, p, q);
  }

  lemma Grows(d: nat, x: nat, y: nat)
    ensures x < y ==> d * x + d <= d * y
    decreases y
  {
    if x < y {
      Grows(d, x, y - 1);
      assert d * y == d * (y - 1) + d;
    }
  }

  /** A word is written with its top byte first. */
  lemma BytesOfWord(w: Word)
    ensures Number(WordBytes(w)) == w as nat
  {
    hide Number;
    BytesOfNat(w as nat);
  }

  lemma BytesOfNat(n: nat)
    requires n < 0x1_0000_0000
    ensures Number([n / 0x100_0000 % 0x100, n / 0x1_0000 % 0x100, n / 0x100 % 0x100, n % 0x100]) == n
  {
    hide Number;
    NextDigit(n, 0x1_0000);
    NextDigit(n, 0x100);
    TopDigit(n);
    FourDigits(n, n / 0x100, n / 0x1_0000, n / 0x100_0000 % 0x100, n / 0x1_0000 % 0x100, n / 0x100 % 0x100, n % 0x100);
  }

  lemma TopDigit(n: nat)
    requires n < 0x1_0000_0000
    ensures n / 0x100_0000 % 0x100 == n / 0x100_0000 && n == n / 0x100 * 0x100 + n % 0x100
  {
  }

  lemma FourDigits(n: nat, q: nat, r: nat, a: Byte, b: Byte, c: Byte, d: Byte)
    requires n == q * 0x100 + d && q == r * 0x100 + c && r == a * 0x100 + b
    ensures Number([a, b, c, d]) == n
  {
    hide Number;
    FourBytes(a, b, c, d);
  }

  lemma FourBytes(a: Byte, b: Byte, c: Byte, d: Byte)
    ensures Number([a, b, c, d]) == (((a as int * 0x100 + b) * 0x100) + c) * 0x100 + d
  {
    assert [a, b, c, d][..3] == [a, b, c];
    ThreeBytes(a, b, c);
  }

  lemma ThreeBytes(a: Byte, b: Byte, c: Byte)
    ensures Number([a, b, c]) == (a as int * 0x100 + b) * 0x100 + c
  {
    assert [a, b, c][..2] == [a, b] && [a, b][..1] == [a] && [a][..0] == [];
    assert Number([a]) == a;
    assert Number([a, b]) == a * 0x100 + b;
  }

  /** The length is written as eight bytes, the top one first (section 5.1.1). */
  lemma BytesOfLength(n: nat)
    requires n < 0x1_0000_0000_0000_0000
    ensures Number(Length64(n)) == n
  {
    LengthPrefix(n, 7);
    assert Length64(n)[..8] == Length64(n);
  }

  lemma {:induction false} LengthPrefix(n: nat, i: nat)
    requires n < 0x1_0000_0000_0000_0000 && i < 8
    ensures Number(Length64(n)[..i + 1]) == n / Unit(i)
  {
    var b := Length64(n)[..i + 1];
    assert b[..i] == Length64(n)[..i] && b[i] == LengthByte(n, i);
    assert LengthByte(n, i) == n / Unit(i) % 0x100;
    if i == 0 {
      assert b[..0] == [] && n / Unit(0) < 0x100;
    } else {
      LengthPrefix(n, i - 1);
      assert Unit(i - 1) == Unit(i) * 0x100;
      NextDigit(n, Unit(i));
    }
  }
}
