/** The 44-byte header of a recording, who accepts it, and the file a recording writes. */
module WavFormat {
  import opened Audio
  import opened Bytes

  function Byte0(n: nat): Byte { n % 0x100 }
  function Byte1(n: nat): Byte { Byte0(n / 0x100) }
  function Byte2(n: nat): Byte { Byte1(n / 0x100) }
  function Byte3(n: nat): Byte { Byte2(n / 0x100) }

  function U16(n: nat): (bytes: seq<Byte>)
    ensures |bytes| == 2
  {
    [Byte0(n), Byte1(n)]
  }

  function U32(n: nat): (bytes: seq<Byte>)
    ensures |bytes| == 4
  {
    [Byte0(n), Byte1(n), Byte2(n), Byte3(n)]
  }

  function Get16(a: nat, b: nat): nat {
    a + 0x100 * b
  }

  function Get32(a: nat, b: nat, c: nat, d: nat): nat {
    Get16(a, Get16(b, Get16(c, d)))
  }

  const RIFF: seq<Byte> := [82, 73, 70, 70]
  const WAVE_FMT: seq<Byte> := [87, 65, 86, 69, 102, 109, 116, 32]
  const DATA: seq<Byte> := [100, 97, 116, 97]

  /** wav_part_build_header with the recorder's fixed audio format. */
  function Header(pcm: nat): (h: seq<Byte>)
    ensures |h| == HEADER_SIZE
  {
    RIFF + U32((36 + pcm) % UINT32) + WAVE_FMT + U32(16) + U16(1) + U16(CHANNELS) + U32(SAMPLE_RATE) + U32(BYTE_RATE)
    + U16(BLOCK_ALIGN) + U16(BITS) + DATA + U32(pcm % UINT32)
  }

  /** The header of one second of audio, byte for byte. */
  lemma OneSecond()
    ensures Header(32000) == [82, 73, 70, 70, 36, 125, 0, 0, 87, 65, 86, 69, 102, 109, 116, 32]
                             + [16, 0, 0, 0, 1, 0, 1, 0, 128, 62, 0, 0, 0, 125, 0, 0, 2, 0, 16, 0]
                             + [100, 97, 116, 97, 0, 125, 0, 0]
  {
    hide U32, U16;
    OneSecondFields();
    assert RIFF + [36, 125, 0, 0] + WAVE_FMT == [82, 73, 70, 70, 36, 125, 0, 0, 87, 65, 86, 69, 102, 109, 116, 32];
  }

  lemma OneSecondFields()
    ensures U32(32036) == [36, 125, 0, 0] && U32(16) == [16, 0, 0, 0] && U16(1) == [1, 0]
    ensures U32(16000) == [128, 62, 0, 0] && U32(32000) == [0, 125, 0, 0] && U16(2) == [2, 0] && U16(16) == [16, 0]
  {
  }

  lemma LowByte(a: nat, rest: nat)
    requires a < 0x100
    ensures Get16(a, rest) % 0x100 == a && Get16(a, rest) / 0x100 == rest
  {
  }

  lemma Split(n: nat)
    ensures n == Get16(Byte0(n), n / 0x100)
  {
  }

  /** Four bytes read as `n` exactly when they are the bytes of `n`. */
  lemma FourBack(a: Byte, b: Byte, c: Byte, d: Byte, n: nat)
    requires n < UINT32
    ensures Get32(a, b, c, d) == n <==> [a, b, c, d] == U32(n)
  {
    hide Get16, Byte0;
    LowByte(a, Get16(b, Get16(c, d)));
    LowByte(b, Get16(c, d));
    LowByte(c, d);
    TopByte(n);
    assert Byte0(Get16(a, Get16(b, Get16(c, d)))) == a by { IsLow(a, Get16(b, Get16(c, d))); }
    assert Byte0(Get16(b, Get16(c, d))) == b by { IsLow(b, Get16(c, d)); }
    assert Byte0(Get16(c, d)) == c by { IsLow(c, d); }
    assert Byte0(d) == d by { SmallByte(d); }
  }

  lemma IsLow(a: Byte, rest: nat)
    ensures Byte0(Get16(a, rest)) == a
  {
  }

  lemma SmallByte(d: Byte)
    ensures Byte0(d) == d
  {
  }

  lemma TopByte(n: nat)
    requires n < UINT32
    ensures n == Get16(Byte0(n), Get16(Byte1(n), Get16(Byte2(n), Byte3(n))))
  {
    var h := n / 0x100;
    var t := h / 0x100;
    var u := t / 0x100;
    assert u < 0x100;
    hide Get16;
    Split(n);
    Split(h);
    Split(t);
    SmallByte(u);
  }

  lemma TwoBack(a: Byte, b: Byte, n: nat)
    requires n < 0x1_0000
    ensures Get16(a, b) == n <==> [a, b] == U16(n)
  {
    assert n / 0x100 < 0x100;
    hide Get16, Byte0;
    LowByte(a, b);
    IsLow(a, b);
    SmallByte(b);
    Split(n);
    SmallByte(n / 0x100);
  }

  /** wav_recovery_validate_header: every field but the two sizes. */
  predicate ValidHeader(h: seq<Byte>)
    requires |h| == HEADER_SIZE
  {
    && h[0..4] == RIFF && h[8..16] == WAVE_FMT
    && Get32(h[16], h[17], h[18], h[19]) == 16 && Get16(h[20], h[21]) == 1 && Get16(h[22], h[23]) == CHANNELS
    && Get32(h[24], h[25], h[26], h[27]) == SAMPLE_RATE && Get32(h[28], h[29], h[30], h[31]) == BYTE_RATE
    && Get16(h[32], h[33]) == BLOCK_ALIGN && Get16(h[34], h[35]) == BITS && h[36..40] == DATA
  }

  /** The positions of the two size fields. */
  predicate SizeByte(i: nat) {
    4 <= i < 8 || 40 <= i < 44
  }

  /** Two headers agree outside the size fields. */
  predicate Agree(g: seq<Byte>, h: seq<Byte>)
    requires |g| == |h| == HEADER_SIZE
  {
    forall i :: 0 <= i < HEADER_SIZE && !SizeByte(i) ==> g[i] == h[i]
  }

  predicate SameFields(g: seq<Byte>, h: seq<Byte>)
    requires |g| == |h| == HEADER_SIZE
  {
    && g[0..4] == h[0..4] && g[8..16] == h[8..16] && g[16..20] == h[16..20] && g[20..22] == h[20..22]
    && g[22..24] == h[22..24] && g[24..28] == h[24..28] && g[28..32] == h[28..32] && g[32..34] == h[32..34]
    && g[34..36] == h[34..36] && g[36..40] == h[36..40]
  }

  lemma FieldsAgree(g: seq<Byte>, h: seq<Byte>)
    requires |g| == |h| == HEADER_SIZE
    ensures Agree(g, h) <==> SameFields(g, h)
  {
    if SameFields(g, h) {
      SlicesAgree(g, h);
    }
  }

  lemma Slice(g: seq<Byte>, h: seq<Byte>, a: nat, b: nat, i: nat)
    requires a <= i < b <= |g| && b <= |h| && g[a..b] == h[a..b]
    ensures g[i] == h[i]
  {
    assert g[a..b][i - a] == h[a..b][i - a];
  }

  lemma SlicesAgree(g: seq<Byte>, h: seq<Byte>)
    requires |g| == |h| == HEADER_SIZE
    requires SameFields(g, h)
    ensures Agree(g, h)
  {
    forall i | 0 <= i < HEADER_SIZE && !SizeByte(i) ensures g[i] == h[i] {
      if i < 4 { Slice(g, h, 0, 4, i); }
      else if i < 16 { Slice(g, h, 8, 16, i); }
      else if i < 20 { Slice(g, h, 16, 20, i); }
      else if i < 22 { Slice(g, h, 20, 22, i); }
      else if i < 24 { Slice(g, h, 22, 24, i); }
      else if i < 28 { Slice(g, h, 24, 28, i); }
      else if i < 32 { Slice(g, h, 28, 32, i); }
      else if i < 34 { Slice(g, h, 32, 34, i); }
      else if i < 36 { Slice(g, h, 34, 36, i); }
      else { Slice(g, h, 36, 40, i); }
    }
  }

  predicate Built(h: seq<Byte>, pcm: nat)
    requires |h| == HEADER_SIZE
  {
    && h[0..4] == RIFF && h[4..8] == U32((36 + pcm) % UINT32) && h[8..16] == WAVE_FMT && h[16..20] == U32(16) && h[20..22] == U16(1)
    && h[22..24] == U16(CHANNELS) && h[24..28] == U32(SAMPLE_RATE) && h[28..32] == U32(BYTE_RATE)
    && h[32..34] == U16(BLOCK_ALIGN) && h[34..36] == U16(BITS) && h[36..40] == DATA && h[40..44] == U32(pcm % UINT32)
  }

  lemma SixPieces(a: seq<Byte>, b: seq<Byte>, c: seq<Byte>, d: seq<Byte>, e: seq<Byte>, f: seq<Byte>)
    ensures var s := a + b + c + d + e + f; var i, j, k := |a| + |b|, |a| + |b| + |c|, |a| + |b| + |c| + |d|;
      && s[..|a|] == a && s[|a|..i] == b && s[i..j] == c && s[j..k] == d && s[k..k + |e|] == e && s[k + |e|..] == f
  {
  }

  /** The fields of a built header. */
  lemma HeaderFields(pcm: nat)
    ensures Built(Header(pcm), pcm)
  {
    hide U16, U32;
    var front := RIFF + U32((36 + pcm) % UINT32) + WAVE_FMT + U32(16) + U16(1) + U16(CHANNELS);
    var back := U32(SAMPLE_RATE) + U32(BYTE_RATE) + U16(BLOCK_ALIGN) + U16(BITS) + DATA + U32(pcm % UINT32);
    SixPieces(RIFF, U32((36 + pcm) % UINT32), WAVE_FMT, U32(16), U16(1), U16(CHANNELS));
    SixPieces(U32(SAMPLE_RATE), U32(BYTE_RATE), U16(BLOCK_ALIGN), U16(BITS), DATA, U32(pcm % UINT32));
    var h := Header(pcm);
    assert h == front + back && |front| == 24 && |back| == 20;
    assert h[0..4] == front[..4] && h[4..8] == front[4..8] && h[8..16] == front[8..16];
    assert h[16..20] == front[16..20] && h[20..22] == front[20..22] && h[22..24] == front[22..];
    assert h[24..28] == back[..4] && h[28..32] == back[4..8] && h[32..34] == back[8..10];
    assert h[34..36] == back[10..12] && h[36..40] == back[12..16] && h[40..44] == back[16..];
  }

  /** A header is accepted exactly when it is a built one outside the size fields. */
  lemma ValidExactly(h: seq<Byte>, pcm: nat)
    requires |h| == HEADER_SIZE
    ensures ValidHeader(h) <==> Agree(h, Header(pcm))
  {
    hide U32, U16, Get32, Get16, Header, Agree;
    HeaderFields(pcm);
    FieldsAgree(h, Header(pcm));
    FourBack(h[16], h[17], h[18], h[19], 16);
    TwoBack(h[20], h[21], 1);
    TwoBack(h[22], h[23], CHANNELS);
    FourBack(h[24], h[25], h[26], h[27], SAMPLE_RATE);
    FourBack(h[28], h[29], h[30], h[31], BYTE_RATE);
    TwoBack(h[32], h[33], BLOCK_ALIGN);
    TwoBack(h[34], h[35], BITS);
    assert h[16..20] == [h[16], h[17], h[18], h[19]] && h[20..22] == [h[20], h[21]] && h[22..24] == [h[22], h[23]];
    assert h[24..28] == [h[24], h[25], h[26], h[27]] && h[28..32] == [h[28], h[29], h[30], h[31]];
    assert h[32..34] == [h[32], h[33]] && h[34..36] == [h[34], h[35]];
  }

  /** A header torn between two accepted ones, byte by byte, is accepted. */
  lemma TornValid(old_: seq<Byte>, new_: seq<Byte>, torn: seq<Byte>)
    requires |old_| == |new_| == |torn| == HEADER_SIZE && ValidHeader(old_) && ValidHeader(new_)
    requires forall i :: 0 <= i < HEADER_SIZE ==> torn[i] == old_[i] || torn[i] == new_[i]
    ensures ValidHeader(torn)
  {
    hide ValidHeader, Header;
    ValidExactly(old_, 0);
    ValidExactly(new_, 0);
    ValidExactly(torn, 0);
  }

  /** finalized_wav_valid: an accepted header whose sizes are those of the file. */
  predicate FinalizedValid(file: seq<Byte>) {
    && HEADER_SIZE <= |file| < UINT32 && (|file| - HEADER_SIZE) % BLOCK_ALIGN == 0
    && ValidHeader(file[..HEADER_SIZE])
    && Get32(file[4], file[5], file[6], file[7]) == |file| - 8
    && Get32(file[40], file[41], file[42], file[43]) == |file| - HEADER_SIZE
  }

  /** A file is a finalized recording exactly if it starts with the header built for the whole samples behind it. */
  lemma FinalizedExactly(file: seq<Byte>)
    ensures FinalizedValid(file)
        <==> HEADER_SIZE <= |file| < UINT32 && (|file| - HEADER_SIZE) % BLOCK_ALIGN == 0 && file[..HEADER_SIZE] == Header(|file| - HEADER_SIZE)
  {
    hide FinalizedValid, Header;
    if FinalizedValid(file) {
      FinalizedSize(file);
      DeclaredHeader(file, |file| - HEADER_SIZE);
    } else if HEADER_SIZE <= |file| < UINT32 && (|file| - HEADER_SIZE) % BLOCK_ALIGN == 0 && file[..HEADER_SIZE] == Header(|file| - HEADER_SIZE) {
      DeclaresSize(file, |file| - HEADER_SIZE);
    }
  }

  lemma FinalizedSize(file: seq<Byte>)
    requires FinalizedValid(file)
    ensures HEADER_SIZE <= |file| < UINT32 && (|file| - HEADER_SIZE) % BLOCK_ALIGN == 0
  {
    hide ValidHeader, Get32;
  }

  lemma DeclaredHeader(file: seq<Byte>, n: nat)
    requires FinalizedValid(file) && |file| == HEADER_SIZE + n
    ensures file[..HEADER_SIZE] == Header(n)
  {
    hide U32, U16, Get32, Get16, ValidHeader, Header;
    var h := file[..HEADER_SIZE];
    HeaderFields(n);
    ValidExactly(h, n);
    FourBack(file[4], file[5], file[6], file[7], 36 + n);
    FourBack(file[40], file[41], file[42], file[43], n);
    assert h[4..8] == [file[4], file[5], file[6], file[7]] && h[40..44] == [file[40], file[41], file[42], file[43]];
    forall i | 0 <= i < HEADER_SIZE ensures h[i] == Header(n)[i] {
      if 4 <= i < 8 { Slice(h, Header(n), 4, 8, i); } else if 40 <= i { Slice(h, Header(n), 40, 44, i); }
    }
  }

  /** A file behind the header built for `n` bytes of whole samples is a finalized recording exactly
      when its payload has that length. */
  lemma DeclaresSize(file: seq<Byte>, n: nat)
    requires |file| >= HEADER_SIZE && file[..HEADER_SIZE] == Header(n) && n % BLOCK_ALIGN == 0 && HEADER_SIZE + n < UINT32
    ensures FinalizedValid(file) <==> |file| == HEADER_SIZE + n
  {
    hide U32, U16, Get32, Get16, ValidHeader, Header;
    var h := file[..HEADER_SIZE];
    HeaderFields(n);
    ValidExactly(h, n);
    FourBack(file[4], file[5], file[6], file[7], 36 + n);
    FourBack(file[40], file[41], file[42], file[43], n);
    assert h[4..8] == [file[4], file[5], file[6], file[7]] && h[40..44] == [file[40], file[41], file[42], file[43]];
  }

  /** A built header in front of exactly its payload, of whole samples, makes a finalized recording. */
  lemma BuiltIsFinalized(payload: seq<Byte>)
    requires |payload| % BLOCK_ALIGN == 0 && HEADER_SIZE + |payload| < UINT32
    ensures FinalizedValid(Header(|payload|) + payload)
  {
    hide Header, FinalizedValid;
    var file := Header(|payload|) + payload;
    assert file[..HEADER_SIZE] == Header(|payload|);
    DeclaresSize(file, |payload|);
  }
}
