/** Writing a recording: a placeholder header, the payload behind it, and checkpoints that rewrite the
    header in place and return to the end (wav_part.c). */
module WavPart {
  import opened Wrappers
  import opened Audio
  import opened Bytes
  import opened WavFormat

  /** fwrite at a position: overwrites, and extends the file past its end. */
  function Put(file: seq<Byte>, pos: nat, data: seq<Byte>): seq<Byte>
    requires pos <= |file|
  {
    file[..pos] + data + (if pos + |data| < |file| then file[pos + |data|..] else [])
  }

  /** The bytes of whole samples among `n`. */
  function Whole(n: nat): nat {
    n - n % SAMPLE_BYTES
  }

  lemma WholeSize(n: nat)
    ensures Whole(n) <= n && Whole(n) % SAMPLE_BYTES == 0
  {
  }

  lemma Count(a: nat, b: nat)
    ensures (a % UINT32 + b) % UINT32 == (a + b) % UINT32
    ensures a % SAMPLE_BYTES == b % SAMPLE_BYTES == 0 ==> (a + b) % SAMPLE_BYTES == 0
  {
    var laps, rest := a / UINT32, a % UINT32;
    assert a == UINT32 * laps + rest;
    AddLaps(rest + b, laps);
    EvenSum(a, b);
  }

  lemma EvenSum(a: nat, b: nat)
    ensures a % SAMPLE_BYTES == b % SAMPLE_BYTES == 0 ==> (a + b) % SAMPLE_BYTES == 0
  {
  }

  /** Whole turns of the counter do not show. */
  lemma {:induction false} AddLaps(n: nat, laps: nat)
    ensures (n + UINT32 * laps) % UINT32 == n % UINT32
  {
    if laps > 0 {
      AddLaps(n, laps - 1);
      assert n + UINT32 * laps == n + UINT32 * (laps - 1) + UINT32;
    }
  }

  lemma PutAtEnd(file: seq<Byte>, data: seq<Byte>)
    ensures Put(file, |file|, data) == file + data
    ensures HEADER_SIZE <= |file| ==> (file + data)[HEADER_SIZE..] == file[HEADER_SIZE..] + data
  {
  }

  lemma PutNothing(file: seq<Byte>, pos: nat)
    requires pos <= |file|
    ensures Put(file, pos, []) == file
  {
  }

  lemma PutSize(file: seq<Byte>, pos: nat, data: seq<Byte>)
    requires pos <= |file|
    ensures |file| <= |Put(file, pos, data)| && pos + |data| <= |Put(file, pos, data)|
  {
  }

  /** Writing behind the header leaves the header alone. */
  lemma PutBehind(file: seq<Byte>, pos: nat, data: seq<Byte>)
    requires HEADER_SIZE <= pos <= |file|
    ensures pos + |data| <= |Put(file, pos, data)| && HEADER_SIZE <= |Put(file, pos, data)|
    ensures Put(file, pos, data)[..HEADER_SIZE] == file[..HEADER_SIZE]
  {
  }

  /** Writing a header leaves the rest alone. */
  lemma PutHeader(file: seq<Byte>, h: seq<Byte>)
    requires |h| == HEADER_SIZE <= |file|
    ensures |Put(file, 0, h)| == |file| && Put(file, 0, h)[..HEADER_SIZE] == h && Put(file, 0, h)[HEADER_SIZE..] == file[HEADER_SIZE..]
    ensures forall i :: 0 <= i < HEADER_SIZE ==> Put(file, 0, h)[i] == h[i]
  {
  }

  /** Where the payload of `pcm` bytes ends, computed in 32 bits. */
  function Tail(pcm: nat): nat {
    (HEADER_SIZE + pcm) % UINT32
  }

  lemma TailIs(n: nat)
    ensures HEADER_SIZE + n < UINT32 ==> n % UINT32 == n && Tail(n) == HEADER_SIZE + n
  {
  }

  /** A header of which the bytes marked in `torn` are new. */
  function Mixed(before: seq<Byte>, after: seq<Byte>, torn: seq<bool>): (h: seq<Byte>)
    requires |before| == |after| == HEADER_SIZE
    ensures |h| == HEADER_SIZE && forall i :: 0 <= i < HEADER_SIZE ==> h[i] == before[i] || h[i] == after[i]
  {
    seq(HEADER_SIZE, i requires 0 <= i < HEADER_SIZE => if i < |torn| && torn[i] then after[i] else before[i])
  }

  class Part {
    var file: seq<Byte>
    var pos: nat
    var pcmBytes: nat
    var isOpen: bool
    /** The payload accepted so far; whether the file is the header and exactly that payload, with the
        position at its end; whether no write has landed on the header since it was last rewritten. */
    ghost var payload: seq<Byte>
    ghost var clean: bool
    ghost var sound: bool

    ghost predicate Valid()
      reads this
    {
      && HEADER_SIZE <= |file| && pos <= |file|
      && pcmBytes == |payload| % UINT32 && |payload| % SAMPLE_BYTES == 0
      && (sound ==> ValidHeader(file[..HEADER_SIZE]))
      && (clean ==> sound && file[HEADER_SIZE..] == payload && pos == |file|)
    }

    /** wav_part_open, once the placeholder header is durable. */
    constructor ()
      ensures Valid() && isOpen && clean && payload == [] && pcmBytes == 0
      ensures file == Header(0) && pos == HEADER_SIZE
    {
      hide Header, ValidHeader;
      file, pos, pcmBytes, isOpen, payload, clean, sound := Header(0), HEADER_SIZE, 0, true, [], true, true;
      HeaderValid(0);
      assert Header(0)[..HEADER_SIZE] == Header(0);
    }

    /** wav_part_write: whole samples only; a failed write may store some of them. It lands where the
        position is. */
    method Write(pcm: seq<Byte>, works: bool, stored: nat) returns (ok: bool, ghost n: nat)
      requires Valid()
      modifies this
      ensures Valid() && isOpen == old(isOpen)
      ensures ok <==> isOpen && (works || Whole(|pcm|) == 0)
      ensures n == if !isOpen then 0 else if works || stored > Whole(|pcm|) then Whole(|pcm|) else stored
      ensures file == Put(old(file), old(pos), pcm[..n]) && pos == old(pos) + n
      ensures payload == if ok then old(payload) + pcm[..Whole(|pcm|)] else old(payload)
      ensures ok ==> clean == old(clean)
      ensures old(pos) >= HEADER_SIZE ==> sound == old(sound) && file[..HEADER_SIZE] == old(file)[..HEADER_SIZE]
    {
      hide ValidHeader, Header, Put, Whole;
      WholeSize(|pcm|);
      var usable := Whole(|pcm|);
      PutNothing(file, pos);
      assert pcm[..0] == [];
      if !isOpen || usable == 0 {
        assert usable == 0 ==> payload + pcm[..usable] == payload;
        return isOpen, 0;
      }
      var took := if works || stored > usable then usable else stored;
      n := took;
      PutSize(file, pos, pcm[..took]);
      if pos >= HEADER_SIZE {
        PutBehind(file, pos, pcm[..took]);
      }
      if clean {
        PutAtEnd(file, pcm[..took]);
      }
      sound := sound && pos >= HEADER_SIZE;
      file, pos := Put(file, pos, pcm[..took]), pos + took;
      if !works {
        clean := false;
        return false, n;
      }
      Count(|payload|, usable);
      payload := payload + pcm[..usable];
      pcmBytes := (pcmBytes + usable) % UINT32;
      ok := true;
    }

    /** wav_part_rewrite_header: seek to the start, write, sync, seek to the payload's end. A failure
        leaves the payload alone and each header byte old or new, but the position may stay in the
        header; `stray` says where, if the first seek worked. */
    method Flush(works: bool, torn: seq<bool>, stray: Option<nat>) returns (ok: bool)
      requires Valid()
      modifies this
      ensures Valid() && isOpen == old(isOpen) && payload == old(payload)
      ensures ok <==> isOpen && works
      ensures |file| == |old(file)| && file[HEADER_SIZE..] == old(file)[HEADER_SIZE..]
      ensures forall i :: 0 <= i < HEADER_SIZE ==> file[i] == old(file)[i] || file[i] == Header(pcmBytes)[i]
      ensures ok ==> sound && file[..HEADER_SIZE] == Header(pcmBytes)
      ensures !ok ==> sound == old(sound) && (pos == old(pos) || pos <= HEADER_SIZE)
      ensures ok && HEADER_SIZE + |payload| < UINT32 ==> clean == old(clean)
      ensures ok && HEADER_SIZE + |payload| < UINT32 && HEADER_SIZE + |payload| <= |file| ==> pos == HEADER_SIZE + |payload|
    {
      hide ValidHeader, Header, Put, Mixed, Tail;
      if !isOpen || (!works && stray.None?) {
        return false;
      }
      TailIs(|payload|);
      if !works {
        TearHeader(torn, stray.value);
        return false;
      }
      HeaderValid(pcmBytes);
      PutHeader(file, Header(pcmBytes));
      file, sound := Put(file, 0, Header(pcmBytes)), true;
      pos := Tail(pcmBytes);
      if pos > |file| || pos < HEADER_SIZE {
        pos, clean := |file|, false;
      }
      clean := clean && pos == |file|;
      ok := true;
    }

    /** A rewrite that fails after the first seek. */
    method TearHeader(torn: seq<bool>, stray: nat)
      requires Valid()
      modifies this`file, this`pos, this`clean
      ensures Valid() && !clean && pos <= HEADER_SIZE
      ensures |file| == |old(file)| && file[HEADER_SIZE..] == old(file)[HEADER_SIZE..]
      ensures forall i :: 0 <= i < HEADER_SIZE ==> file[i] == old(file)[i] || file[i] == Header(pcmBytes)[i]
    {
      hide ValidHeader, Header, Put, Mixed;
      HeaderValid(pcmBytes);
      var mixed := Mixed(file[..HEADER_SIZE], Header(pcmBytes), torn);
      if sound {
        TornValid(file[..HEADER_SIZE], Header(pcmBytes), mixed);
      }
      PutHeader(file, mixed);
      file, pos, clean := Put(file, 0, mixed), if stray < HEADER_SIZE then stray else HEADER_SIZE, false;
    }

    /** wav_part_close: whatever failed before, a good close leaves a finalized recording exactly when the
        file is as long as the accepted payload says, and the whole payload if that is what it holds. */
    method Close(works: bool, torn: seq<bool>, stray: Option<nat>, closes: bool) returns (ok: bool)
      requires Valid()
      modifies this
      ensures Valid() && !isOpen && payload == old(payload)
      ensures |file| == |old(file)| && file[HEADER_SIZE..] == old(file)[HEADER_SIZE..]
      ensures ok <==> old(isOpen) ==> works && closes
      ensures ok && old(isOpen) && HEADER_SIZE + |payload| < UINT32 ==>
        (FinalizedValid(file) <==> |old(file)| == HEADER_SIZE + |payload|)
      ensures ok && old(isOpen) && HEADER_SIZE + |payload| < UINT32 && old(file)[HEADER_SIZE..] == payload ==>
        file == Header(|payload|) + payload && FinalizedValid(file)
      ensures ok && old(isOpen && clean) && HEADER_SIZE + |payload| < UINT32 ==>
        file == Header(|payload|) + payload && FinalizedValid(file)
    {
      hide ValidHeader, Header, FinalizedValid;
      if !isOpen {
        return true;
      }
      ok := Flush(works, torn, stray);
      if ok && HEADER_SIZE + |payload| < UINT32 {
        assert pcmBytes == |payload|;
        DeclaresSize(file, |payload|);
        assert file == file[..HEADER_SIZE] + file[HEADER_SIZE..];
      }
      ok := ok && closes;
      isOpen := false;
    }
  }

  /** What becomes of a recording whose last write failed and that is then closed: the close succeeds,
      and the file is a finalized recording exactly when the failed write stored nothing. */
  method CloseAfterFailedWrite(before: seq<Byte>, last: seq<Byte>, stored: nat) returns (part: Part, ok: bool)
    requires HEADER_SIZE + |before| < UINT32 && |last| >= SAMPLE_BYTES
    ensures fresh(part) && ok && part.payload == before[..Whole(|before|)]
    ensures FinalizedValid(part.file) <==> stored == 0
  {
    hide FinalizedValid, Header, ValidHeader;
    part := new Part();
    var wrote, n := part.Write(before, true, 0);
    PutAtEnd(Header(0), before[..n]);
    assert [] + before[..n] == before[..n];
    ghost var whole := part.file;
    wrote, n := part.Write(last, false, stored);
    PutAtEnd(whole, last[..n]);
    ok := part.Close(true, [], None, true);
  }

  /** A concrete case: one byte of the first sample reaches the card, the write fails, the close works. */
  method TornFirstWrite() returns (part: Part, ok: bool)
    ensures fresh(part) && ok && part.payload == [] && !FinalizedValid(part.file)
  {
    hide FinalizedValid, Header, ValidHeader;
    part, ok := CloseAfterFailedWrite([], [0, 0], 1);
  }

  /** A checkpoint that failed, and then a good close: the recording is finalized and holds its payload. */
  method CloseAfterFailedFlush(pcm: seq<Byte>, torn: seq<bool>, stray: Option<nat>) returns (part: Part, ok: bool)
    requires HEADER_SIZE + |pcm| < UINT32
    ensures fresh(part) && ok && part.payload == pcm[..Whole(|pcm|)]
    ensures part.file == Header(|part.payload|) + part.payload && FinalizedValid(part.file)
  {
    hide FinalizedValid, Header, ValidHeader;
    part := new Part();
    var wrote, n := part.Write(pcm, true, 0);
    PutAtEnd(Header(0), pcm[..n]);
    assert [] + pcm[..n] == pcm[..n];
    ok := part.Flush(false, torn, stray);
    ok := part.Close(true, [], None, true);
  }

  /** A write leaves the bytes it covers as they were exactly when it writes the same bytes. */
  lemma StrayWrite(file: seq<Byte>, pos: nat, data: seq<Byte>)
    requires pos <= |file|
    ensures file <= Put(file, pos, data) <==> forall i :: 0 <= i < |data| && pos + i < |file| ==> data[i] == file[pos + i]
  {
    var put := Put(file, pos, data);
    if file <= put {
      forall i | 0 <= i < |data| && pos + i < |file| ensures data[i] == file[pos + i] {
        assert put[pos + i] == data[i];
      }
    } else {
      var k :| 0 <= k < |file| && put[k] != file[k];
      assert pos <= k < pos + |data| && put[k] == data[k - pos];
    }
  }

  lemma HeaderValid(pcm: nat)
    ensures ValidHeader(Header(pcm))
  {
    hide Header, ValidHeader;
    ValidExactly(Header(pcm), pcm);
  }
}
