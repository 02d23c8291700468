/** A digest as the text the manifest carries, and the hash text of a file. */
module Sha256Hex {
  import opened Bytes
  import opened Wrappers
  import opened Sha256
  import opened Sha256Stream
  import opened ManifestFormat

  function Nibble(v: nat): char
    requires v < 16
  {
    if v < 10 then ('0' as int + v) as char else ('a' as int + (v - 10)) as char
  }

  function FromNibble(c: char): nat
    requires LowerHex(c)
  {
    if c <= '9' then c as int - '0' as int else c as int - 'a' as int + 10
  }

  /** Two digits a byte. */
  function Hex(bytes: seq<Byte>): (hex: string)
    ensures |hex| == 2 * |bytes|
  {
    if bytes == [] then ""
    else
      var last := bytes[|bytes| - 1];
      Hex(bytes[..|bytes| - 1]) + [Nibble(last / 16), Nibble(last % 16)]
  }

  /** The digits are lowercase and give the bytes back. */
  lemma {:induction false} HexMeans(bytes: seq<Byte>, i: nat)
    requires i < |bytes|
    ensures var h, l := Hex(bytes)[2 * i], Hex(bytes)[2 * i + 1];
      LowerHex(h) && LowerHex(l) && bytes[i] == 16 * FromNibble(h) + FromNibble(l)
  {
    if i < |bytes| - 1 {
      HexMeans(bytes[..|bytes| - 1], i);
    }
  }

  lemma HexStep(bytes: seq<Byte>, i: nat)
    requires i < |bytes|
    ensures Hex(bytes[..i + 1]) == Hex(bytes[..i]) + [Nibble(bytes[i] / 16), Nibble(bytes[i] % 16)]
  {
    hide Nibble, FromNibble;
    assert bytes[..i + 1][..i] == bytes[..i];
  }

  /** sha256_to_hex: a text that the manifest accepts as a hash and that names the digest. */
  method ToHex(digest: seq<Byte>) returns (hex: string)
    requires |digest| == 32
    ensures hex == Hex(digest) && ValidSha256(hex)
    ensures forall i :: 0 <= i < 32 ==> LowerHex(hex[2 * i]) && LowerHex(hex[2 * i + 1])
    ensures forall i :: 0 <= i < 32 ==> digest[i] == 16 * FromNibble(hex[2 * i]) + FromNibble(hex[2 * i + 1])
  {
    hide Nibble, FromNibble;
    hex := "";
    assert Hex([]) == "";
    for i := 0 to 32
      invariant hex == Hex(digest[..i])
    {
      HexStep(digest, i);
      hex := hex + [Nibble(digest[i] / 16), Nibble(digest[i] % 16)];
    }
    assert digest[..32] == digest;
    hide Hex;
    forall i | 0 <= i < 32
      ensures LowerHex(hex[2 * i]) && LowerHex(hex[2 * i + 1])
      ensures digest[i] == 16 * FromNibble(hex[2 * i]) + FromNibble(hex[2 * i + 1])
    {
      HexMeans(digest, i);
    }
    forall k | 0 <= k < 64 ensures LowerHex(hex[k]) {
      assert k == 2 * (k / 2) || k == 2 * (k / 2) + 1;
    }
  }

  const READ_SIZE: nat := 1024

  /** sha256_file_hex: reads of at most a kilobyte until a short one, hashed as they come. */
  method FileHex(bytes: seq<Byte>, readable: bool) returns (hex: Option<string>)
    requires |bytes| < UINT32
    ensures hex == if readable then Some(Hex(Sha256Of(bytes))) else None
  {
    hide Sha256Of, Hex, Context.Valid;
    if !readable {
      return None;
    }
    var ctx := new Context();
    var at, more := 0, true;
    while more
      invariant fresh(ctx) && fresh(ctx.state) && fresh(ctx.data) && ctx.Valid()
      invariant 0 <= at <= |bytes| && ctx.message == bytes[..at] && (!more ==> at == |bytes|)
      decreases more, |bytes| - at
    {
      var got := if |bytes| - at < READ_SIZE then |bytes| - at else READ_SIZE;
      ctx.Update(bytes[at..at + got]);
      assert bytes[..at] + bytes[at..at + got] == bytes[..at + got];
      at, more := at + got, got == READ_SIZE;
    }
    assert bytes[..at] == bytes;
    var digest := ctx.Finish();
    var text := ToHex(digest);
    hex := Some(text);
  }
}
