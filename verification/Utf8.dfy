/** The UTF-8 check of the serial protocol accepts exactly the encodings of nonzero Unicode scalar
    values (RFC 3629, sections 3 and 4). */
module Utf8 {
  import opened Bytes

  /** A Unicode scalar value other than NUL. */
  predicate Scalar(c: nat) {
    0 < c <= 0x10ffff && !(0xd800 <= c <= 0xdfff)
  }

  function Encode(c: nat): (e: seq<Byte>)
    requires Scalar(c)
    ensures 1 <= |e| <= 4
  {
    if c < 0x80 then [c]
    else if c < 0x800 then [0xc0 + c / 0x40, 0x80 + c % 0x40]
    else if c < 0x10000 then [0xe0 + c / 0x1000, 0x80 + c / 0x40 % 0x40, 0x80 + c % 0x40]
    else [0xf0 + c / 0x40000, 0x80 + c / 0x1000 % 0x40, 0x80 + c / 0x40 % 0x40, 0x80 + c % 0x40]
  }

  predicate Scalars(cs: seq<nat>) {
    forall i :: 0 <= i < |cs| ==> Scalar(cs[i])
  }

  function EncodeAll(cs: seq<nat>): seq<Byte>
    requires Scalars(cs)
  {
    if cs == [] then [] else Encode(cs[0]) + EncodeAll(cs[1..])
  }

  predicate At(data: seq<Byte>, i: nat, c: nat) {
    Scalar(c) && i + |Encode(c)| <= |data| && data[i..i + |Encode(c)|] == Encode(c)
  }

  predicate Continuation(b: Byte) {
    b / 0x40 == 2
  }

  /** How many bytes follow a lead byte; -1 for a byte that leads nothing. */
  function Need(lead: Byte): int {
    if 0 < lead < 0x80 then 0
    else if 0xc2 <= lead <= 0xdf then 1
    else if 0xe0 <= lead <= 0xef then 2
    else if 0xf0 <= lead <= 0xf4 then 3
    else -1
  }

  /** The payload bits of a lead byte, and of a byte that follows. */
  function Lead(lead: Byte): nat {
    if lead < 0x80 then lead else if lead <= 0xdf then lead % 0x20 else if lead <= 0xef then lead % 0x10 else lead % 8
  }

  function Low(b: Byte): nat {
    b % 0x40
  }

  function Join(high: nat, low: nat): nat {
    high * 0x40 + low
  }

  /** The lead byte's bits followed by six bits of each of the next `n` bytes. */
  function Code(data: seq<Byte>, i: nat, n: nat): nat
    requires i + n < |data|
  {
    if n == 0 then Lead(data[i]) else Join(Code(data, i, n - 1), Low(data[i + n]))
  }

  predicate Continued(data: seq<Byte>, i: nat, n: nat)
    requires i + n < |data|
  {
    forall k :: i < k <= i + n ==> Continuation(data[k])
  }

  /** The source's tests on a complete sequence: shortest form, in range, no surrogate. */
  predicate Accepted(need: int, code: nat) {
    !((need == 1 && code < 0x80) || (need == 2 && code < 0x800) || (need == 3 && code < 0x10000)
      || code > 0x10ffff || 0xd800 <= code <= 0xdfff)
  }

  predicate Passes(data: seq<Byte>, i: nat)
    requires i < |data|
  {
    var need := Need(data[i]);
    need >= 0 && i + need < |data| && Continued(data, i, need) && Accepted(need, Code(data, i, need))
  }

  // ----- One scalar value -----

  /** The value of a sequence of up to four bytes. */
  function CodeOf(e: seq<Byte>): nat
    requires 1 <= |e| <= 4
  {
    var c := Lead(e[0]);
    if |e| == 1 then c else
      var c := Join(c, Low(e[1]));
      if |e| == 2 then c else
        var c := Join(c, Low(e[2]));
        if |e| == 3 then c else Join(c, Low(e[3]))
  }

  lemma CodeIs(data: seq<Byte>, i: nat, n: nat)
    requires i + n < |data| && n <= 3
    ensures Code(data, i, n) == CodeOf(data[i..i + n + 1])
  {
    hide Lead, Low, Join;
    if n > 0 {
      CodeIs(data, i, n - 1);
    }
  }

  lemma Encode2(c: nat)
    requires 0x80 <= c < 0x800
    ensures var e := Encode(c); Need(e[0]) == 1 && Continuation(e[1]) && CodeOf(e) == c
  {
    hide CodeOf;
    Bits2(Encode(c), c / 0x40, c % 0x40);
  }

  lemma Bits2(e: seq<Byte>, a: nat, b: nat)
    requires |e| == 2 && e[0] == 0xc0 + a && e[1] == 0x80 + b && a < 0x20 && b < 0x40
    ensures CodeOf(e) == a * 0x40 + b
  {
    assert Lead(e[0]) == a && Low(e[1]) == b;
  }

  lemma Encode3(c: nat)
    requires Scalar(c) && 0x800 <= c < 0x10000
    ensures var e := Encode(c); Need(e[0]) == 2 && Continuation(e[1]) && Continuation(e[2]) && CodeOf(e) == c
  {
    hide CodeOf;
    var a, b, d := c / 0x1000, c / 0x40 % 0x40, c % 0x40;
    Bits3(Encode(c), a, b, d);
    assert c == (a * 0x40 + b) * 0x40 + d;
  }

  lemma Encode4(c: nat)
    requires 0x10000 <= c <= 0x10ffff
    ensures var e := Encode(c); Need(e[0]) == 3 && Continuation(e[1]) && Continuation(e[2]) && Continuation(e[3]) && CodeOf(e) == c
  {
    hide CodeOf;
    Digits64(c);
    Bits4(Encode(c), c / 0x40000, c / 0x1000 % 0x40, c / 0x40 % 0x40, c % 0x40);
  }

  /** A value from its digits in base 64. */
  lemma Digits64(c: nat)
    ensures c == ((c / 0x40000 * 0x40 + c / 0x1000 % 0x40) * 0x40 + c / 0x40 % 0x40) * 0x40 + c % 0x40
  {
    var x, y, z := c / 0x40, c / 0x40 / 0x40, c / 0x40 / 0x40 / 0x40;
    Two64(c);
    Three64(c);
    assert c == x * 0x40 + c % 0x40 && x == y * 0x40 + x % 0x40 && y == z * 0x40 + y % 0x40;
  }

  lemma Two64(c: nat)
    ensures c / 0x1000 == c / 0x40 / 0x40
  {
    var q, t := c / 0x1000, c % 0x1000 / 0x40;
    assert c == 0x40 * (0x40 * q + t) + c % 0x1000 % 0x40;
    assert c / 0x40 == 0x40 * q + t;
  }

  lemma Three64(c: nat)
    ensures c / 0x40000 == c / 0x40 / 0x40 / 0x40
  {
    var q, t := c / 0x40000, c % 0x40000 / 0x1000;
    assert c == 0x1000 * (0x40 * q + t) + c % 0x40000 % 0x1000;
    assert c / 0x1000 == 0x40 * q + t;
    Two64(c);
  }

  /** The encoding of a scalar value has the shape the source tests for, and its bits are the value. */
  lemma EncodeShape(c: nat)
    requires Scalar(c)
    ensures Need(Encode(c)[0]) + 1 == |Encode(c)| && CodeOf(Encode(c)) == c && Accepted(|Encode(c)| - 1, c)
    ensures forall k :: 0 < k < |Encode(c)| ==> Continuation(Encode(c)[k])
  {
    hide CodeOf, Need, Continuation;
    if c < 0x80 {
      Encode1(c);
    } else if c < 0x800 {
      Encode2(c);
    } else if c < 0x10000 {
      Encode3(c);
    } else {
      Encode4(c);
    }
  }

  lemma Encode1(c: nat)
    requires 0 < c < 0x80
    ensures Need(Encode(c)[0]) == 0 && CodeOf(Encode(c)) == c
  {
  }

  lemma Decode2(e: seq<Byte>)
    requires |e| == 2 && Need(e[0]) == 1 && Continuation(e[1])
    ensures 0x80 <= CodeOf(e) < 0x800 && Encode(CodeOf(e)) == e
  {
    hide CodeOf, Lead, Low;
    Bits2(e, e[0] - 0xc0, e[1] - 0x80);
    assert e == [e[0], e[1]];
  }

  lemma Decode3(e: seq<Byte>)
    requires |e| == 3 && Need(e[0]) == 2 && Continuation(e[1]) && Continuation(e[2]) && Accepted(2, CodeOf(e))
    ensures 0x800 <= CodeOf(e) < 0x10000 && Encode(CodeOf(e)) == e
  {
    hide CodeOf, Lead, Low;
    var a: nat, b: nat, d: nat := e[0] - 0xe0, e[1] - 0x80, e[2] - 0x80;
    Bits3(e, a, b, d);
    Digits3(a, b, d);
    assert e == [e[0], e[1], e[2]];
  }

  lemma Bits3(e: seq<Byte>, a: nat, b: nat, d: nat)
    requires |e| == 3 && e[0] == 0xe0 + a && e[1] == 0x80 + b && e[2] == 0x80 + d && a < 0x10 && b < 0x40 && d < 0x40
    ensures CodeOf(e) == (a * 0x40 + b) * 0x40 + d
  {
    assert Lead(e[0]) == a && Low(e[1]) == b && Low(e[2]) == d;
  }

  lemma Digits3(a: nat, b: nat, d: nat)
    requires b < 0x40 && d < 0x40
    ensures var c := (a * 0x40 + b) * 0x40 + d; c / 0x1000 == a && c / 0x40 % 0x40 == b && c % 0x40 == d
  {
    assert ((a * 0x40 + b) * 0x40 + d) / 0x40 == a * 0x40 + b;
  }

  lemma Decode4(e: seq<Byte>)
    requires |e| == 4 && Need(e[0]) == 3 && Continuation(e[1]) && Continuation(e[2]) && Continuation(e[3]) && Accepted(3, CodeOf(e))
    ensures 0x10000 <= CodeOf(e) <= 0x10ffff && Encode(CodeOf(e)) == e
  {
    hide CodeOf, Lead, Low;
    var a: nat, b: nat, d: nat, l: nat := e[0] - 0xf0, e[1] - 0x80, e[2] - 0x80, e[3] - 0x80;
    Bits4(e, a, b, d, l);
    Digits4(a, b, d, l);
    assert e == [e[0], e[1], e[2], e[3]];
  }

  lemma Bits4(e: seq<Byte>, a: nat, b: nat, d: nat, l: nat)
    requires |e| == 4 && e[0] == 0xf0 + a && e[1] == 0x80 + b && e[2] == 0x80 + d && e[3] == 0x80 + l
    requires a < 8 && b < 0x40 && d < 0x40 && l < 0x40
    ensures CodeOf(e) == ((a * 0x40 + b) * 0x40 + d) * 0x40 + l
  {
    assert Lead(e[0]) == a && Low(e[1]) == b && Low(e[2]) == d && Low(e[3]) == l;
  }

  lemma Digits4(a: nat, b: nat, d: nat, l: nat)
    requires b < 0x40 && d < 0x40 && l < 0x40
    ensures var c := ((a * 0x40 + b) * 0x40 + d) * 0x40 + l;
            c / 0x40000 == a && c / 0x1000 % 0x40 == b && c / 0x40 % 0x40 == d && c % 0x40 == l
  {
    var h := (a * 0x40 + b) * 0x40 + d;
    Digits3(a, b, d);
    assert (h * 0x40 + l) / 0x40 == h;
  }

  /** What passes the source's tests is the encoding of the value they compute. */
  lemma DecodeShape(e: seq<Byte>)
    requires 1 <= |e| <= 4 && Need(e[0]) + 1 == |e| && Accepted(|e| - 1, CodeOf(e))
    requires forall k :: 0 < k < |e| ==> Continuation(e[k])
    ensures Scalar(CodeOf(e)) && Encode(CodeOf(e)) == e
  {
    hide CodeOf, Encode, Continuation;
    if |e| == 1 {
      Decode1(e);
    } else if |e| == 2 {
      Decode2(e);
    } else if |e| == 3 {
      Decode3(e);
    } else {
      Decode4(e);
    }
  }

  lemma Decode1(e: seq<Byte>)
    requires |e| == 1 && Need(e[0]) == 0
    ensures 0 < CodeOf(e) < 0x80 && Encode(CodeOf(e)) == e
  {
  }

  /** An encoding passes the source's tests, and they compute the scalar value. */
  lemma EncodingPasses(data: seq<Byte>, i: nat, c: nat)
    requires At(data, i, c)
    ensures i < |data| && Need(data[i]) + 1 == |Encode(c)| && Passes(data, i) && Code(data, i, Need(data[i])) == c
  {
    hide Code, CodeOf, Encode, Continuation, Need;
    EncodeShape(c);
    var e := data[i..i + |Encode(c)|];
    assert e[0] == data[i];
    CodeIs(data, i, |e| - 1);
    forall k | i < k <= i + |e| - 1 ensures Continuation(data[k]) {
      assert data[k] == e[k - i];
    }
  }

  /** What passes the tests is the encoding of the value they compute. */
  lemma PassingIsEncoding(data: seq<Byte>, i: nat)
    requires i < |data| && Passes(data, i)
    ensures At(data, i, Code(data, i, Need(data[i]))) && |Encode(Code(data, i, Need(data[i])))| == Need(data[i]) + 1
  {
    hide Code, CodeOf, Encode, Continuation;
    var n := Need(data[i]);
    var e := data[i..i + n + 1];
    CodeIs(data, i, n);
    forall k | 0 < k < |e| ensures Continuation(e[k]) {
      assert e[k] == data[i + k];
    }
    DecodeShape(e);
  }

  // ----- The whole text -----

  /** From `i` on, the bytes encode nonzero scalar values. */
  ghost predicate IsText(data: seq<Byte>, i: nat)
    requires i <= |data|
  {
    exists cs :: Scalars(cs) && EncodeAll(cs) == data[i..]
  }

  lemma {:induction false} EncodeSnoc(cs: seq<nat>, c: nat)
    requires Scalars(cs) && Scalar(c)
    ensures Scalars(cs + [c]) && EncodeAll(cs + [c]) == EncodeAll(cs) + Encode(c)
  {
    hide Encode, Scalar;
    if cs == [] {
      assert cs + [c] == [c] && EncodeAll([]) == [] && EncodeAll([c]) == Encode(c) + EncodeAll([c][1..]);
    } else {
      EncodeSnoc(cs[1..], c);
      assert (cs + [c])[1..] == cs[1..] + [c];
    }
  }

  /** A nonempty text starts with a scalar value and goes on as a text. */
  lemma TextStep(data: seq<Byte>, i: nat) returns (c: nat)
    requires i < |data| && IsText(data, i)
    ensures At(data, i, c) && IsText(data, i + |Encode(c)|)
  {
    hide Encode, Scalar;
    var cs :| Scalars(cs) && EncodeAll(cs) == data[i..];
    c := cs[0];
    var n := |Encode(c)|;
    assert data[i..][..n] == Encode(c) && data[i..][..n] == data[i..i + n];
    assert EncodeAll(cs[1..]) == data[i..][n..] == data[i + n..];
  }

  /** cdc_utf8_valid. */
  method Utf8Valid(data: seq<Byte>) returns (ok: bool, ghost cs: seq<nat>)
    ensures ok <==> IsText(data, 0)
    ensures ok ==> Scalars(cs) && EncodeAll(cs) == data
  {
    hide Encode, Scalar, Code, Passes, IsText;
    var i := 0;
    cs := [];
    assert data[..0] == EncodeAll([]);
    while i < |data|
      invariant i <= |data| && Scalars(cs) && EncodeAll(cs) == data[..i]
      invariant IsText(data, 0) ==> IsText(data, i)
      decreases |data| - i
    {
      ghost var start := i;
      if IsText(data, start) {
        ghost var c := TextStep(data, start);
        EncodingPasses(data, start, c);
      }
      var lead := data[i];
      i := i + 1;
      var need := Need(lead);
      if need < 0 || i + need > |data| {
        MustPass(data, start);
        return false, cs;
      }
      var code := Lead(lead);
      CodeStart(data, start);
      for j := 0 to need
        invariant i == start + 1 + j <= |data| && Continued(data, start, j) && code == Code(data, start, j)
      {
        var cc := data[i];
        i := i + 1;
        if !Continuation(cc) {
          MustPass(data, start);
          return false, cs;
        }
        CodeNext(data, start, j);
        code := Join(code, Low(cc));
      }
      if !Accepted(need, code) {
        MustPass(data, start);
        return false, cs;
      }
      PassesNow(data, start, code);
      PassingIsEncoding(data, start);
      EncodeSnoc(cs, code);
      assert data[..i] == data[..start] + data[start..i];
      cs := cs + [code];
    }
    EmptyText(data);
    assert data[..|data|] == data;
    return true, cs;
  }

  lemma MustPass(data: seq<Byte>, i: nat)
    requires i < |data|
    ensures Passes(data, i) ==> Need(data[i]) >= 0 && i + Need(data[i]) < |data|
    ensures Passes(data, i) ==> Continued(data, i, Need(data[i])) && Accepted(Need(data[i]), Code(data, i, Need(data[i])))
  {
  }

  lemma PassesNow(data: seq<Byte>, i: nat, code: nat)
    requires i < |data| && Need(data[i]) >= 0 && i + Need(data[i]) < |data|
    requires Continued(data, i, Need(data[i])) && code == Code(data, i, Need(data[i])) && Accepted(Need(data[i]), code)
    ensures Passes(data, i)
  {
  }

  lemma CodeStart(data: seq<Byte>, i: nat)
    requires i < |data|
    ensures Code(data, i, 0) == Lead(data[i])
  {
  }

  lemma CodeNext(data: seq<Byte>, i: nat, n: nat)
    requires i + n + 1 < |data|
    ensures Code(data, i, n + 1) == Join(Code(data, i, n), Low(data[i + n + 1]))
  {
  }

  lemma EmptyText(data: seq<Byte>)
    ensures IsText(data, |data|)
    ensures (exists cs :: Scalars(cs) && EncodeAll(cs) == data) <==> IsText(data, 0)
  {
    assert Scalars([]) && EncodeAll([]) == data[|data|..];
    assert data[0..] == data;
  }
}
