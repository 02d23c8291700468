/** Finishing or quarantining a recording that power loss interrupted, with power cut again at any
    step of the recovery (wav_recovery_recover_file). */
module WavRecovery {
  import opened Audio
  import opened Bytes
  import opened WavFormat

  /** The interrupted file, its finalized name, and the hundred names quarantine tries. */
  datatype Name = Part | Wav | Held(n: nat)
  datatype Outcome = Recovered | Quarantined | Error | PowerCut

  type Files = map<Name, seq<Byte>>

  const HELD: nat := 100

  // ----- What recovery makes of an interrupted file -----

  /** Payload bytes of whole samples, computed in 32 bits. */
  function WholeSamples(size: nat): nat
    requires HEADER_SIZE <= size
  {
    var payload := (size - HEADER_SIZE) % UINT32;
    payload - payload % SAMPLE_BYTES
  }

  /** The size the file is cut to, computed in 32 bits. */
  function WantedSize(size: nat): nat
    requires HEADER_SIZE <= size
  {
    (HEADER_SIZE + WholeSamples(size)) % UINT32
  }

  /** Every whole sample is kept exactly when the file fits a 32-bit size. */
  lemma KeepsSamplesExactly(size: nat)
    requires HEADER_SIZE <= size
    ensures WantedSize(size) == size - (size - HEADER_SIZE) % SAMPLE_BYTES <==> size - (size - HEADER_SIZE) % SAMPLE_BYTES < UINT32
  {
  }

  /** An interrupted recording that recovery can finish. */
  predicate Interrupted(p: seq<Byte>) {
    HEADER_SIZE <= |p| < UINT32 && ValidHeader(p[..HEADER_SIZE])
  }

  function Even(p: seq<Byte>): nat
    requires HEADER_SIZE <= |p|
  {
    |p| - (|p| - HEADER_SIZE) % SAMPLE_BYTES
  }

  /** The recording as it should end up. */
  function Finished(p: seq<Byte>): seq<Byte>
    requires HEADER_SIZE <= |p|
  {
    Header(Even(p) - HEADER_SIZE) + p[HEADER_SIZE..Even(p)]
  }

  /** A file on the way: an accepted header, and the payload with or without its torn last byte. */
  predicate OnTheWay(p: seq<Byte>, f: seq<Byte>)
    requires HEADER_SIZE <= |p|
  {
    && (|f| == |p| || |f| == Even(p)) && ValidHeader(f[..HEADER_SIZE])
    && f[HEADER_SIZE..] == p[HEADER_SIZE..|f|]
  }

  /** A finished file, unless cutting the torn last byte failed. */
  predicate Done(p: seq<Byte>, w: seq<Byte>)
    requires HEADER_SIZE <= |p|
  {
    OnTheWay(p, w) && w[..HEADER_SIZE] == Header(Even(p) - HEADER_SIZE)
  }

  /** The interrupted recording is still there to be finished, or it is finished. */
  predicate Progress(files: Files, p: seq<Byte>)
    requires HEADER_SIZE <= |p|
  {
    if Part in files then Wav !in files && OnTheWay(p, files[Part])
    else Wav in files && Done(p, files[Wav])
  }

  /** A done file is a finalized recording exactly when it has no torn byte left. */
  lemma DoneIsFinalized(p: seq<Byte>, w: seq<Byte>)
    requires Interrupted(p) && Done(p, w)
    ensures FinalizedValid(w) <==> w == Finished(p)
    ensures FinalizedValid(w) <==> |p| == Even(p) || |w| < |p|
  {
    hide Header, ValidHeader;
    var payload := p[HEADER_SIZE..Even(p)];
    BuiltIsFinalized(payload);
    assert w == w[..HEADER_SIZE] + w[HEADER_SIZE..];
    if FinalizedValid(w) {
      assert |w| == Even(p);
    }
  }

  /** Whatever fails, a recording of whole samples ends finalized. */
  lemma WholeIsFinalized(p: seq<Byte>, w: seq<Byte>)
    requires Interrupted(p) && |p| == Even(p) && Done(p, w)
    ensures FinalizedValid(w)
  {
    hide Header, ValidHeader, FinalizedValid, Finished, Done;
    DoneIsFinalized(p, w);
  }

  /** With a torn byte that was not cut off, the done file is not a finalized recording. */
  lemma TornStays(p: seq<Byte>)
    requires Interrupted(p) && |p| != Even(p)
    ensures var w := Header(Even(p) - HEADER_SIZE) + p[HEADER_SIZE..]; Done(p, w) && !FinalizedValid(w)
  {
    hide Header, ValidHeader;
    var h := Header(Even(p) - HEADER_SIZE);
    var w := h + p[HEADER_SIZE..];
    BuiltIsValid(Even(p) - HEADER_SIZE);
    assert w[..HEADER_SIZE] == h && w[HEADER_SIZE..] == p[HEADER_SIZE..] == p[HEADER_SIZE..|w|];
    DoneIsFinalized(p, w);
  }

  // ----- What an attempt decides -----

  /** Which look-ups and which of the moves of one attempt work: a name that cannot be looked up reads
      as absent, a size or header that cannot be read sends the file to quarantine. */
  datatype Works = Works(part: bool, wav: bool, size: bool, opens: bool, header: bool, moves: bool, cuts: bool)

  const ALL_WORKS := Works(true, true, true, true, true, true, true)

  datatype Step = Already | Leave | Hold | Finish

  function Decide(files: Files, works: Works): Step {
    if Part !in files || !works.part then (if Wav in files && works.wav then Already else Leave)
    else if Wav in files && works.wav then Hold
    else if !works.size || |files[Part]| < HEADER_SIZE then Hold
    else if !works.opens then Leave
    else if !works.header || !ValidHeader(files[Part][..HEADER_SIZE]) then Hold
    else Finish
  }

  /** One of the quarantine names is free. */
  predicate CanHold(files: Files) {
    exists k :: 0 <= k < HELD && Held(k) !in files
  }

  /** The attempt cannot read the interrupted file's size, or opens it and cannot read its header. */
  predicate Misreads(works: Works) {
    !works.size || (works.opens && !works.header)
  }

  /** The attempt takes an interrupted recording away: it sees the file, cannot read its size or its
      header, and can move it to a quarantine name. */
  predicate Takes(files: Files, works: Works) {
    Part in files && works.part && Misreads(works) && works.moves && CanHold(files)
  }

  /** A recording on its way is held exactly when its size or its header cannot be read. */
  lemma HeldExactly(files: Files, p: seq<Byte>, works: Works)
    requires Interrupted(p) && Progress(files, p)
    ensures Decide(files, works) == Hold <==> Part in files && works.part && Misreads(works)
    ensures Decide(files, works) == Finish <==> Part in files && works.part && works.size && works.opens && works.header
  {
    hide ValidHeader;
  }

  /** One failed read of an intact recording is enough: an attempt that could not read the header holds
      a file that the next attempt would have finished. */
  lemma ReadFaultHolds()
    ensures var files: Files := map[Part := Header(0)];
      && Interrupted(Header(0)) && Progress(files, Header(0))
      && Decide(files, ALL_WORKS) == Finish
      && Takes(files, ALL_WORKS.(header := false)) && Decide(files, ALL_WORKS.(header := false)) == Hold
      && Takes(files, ALL_WORKS.(size := false)) && Decide(files, ALL_WORKS.(size := false)) == Hold
  {
    hide Header, ValidHeader;
    BuiltIsValid(0);
    var files: Files := map[Part := Header(0)];
    assert Header(0)[..HEADER_SIZE] == Header(0);
    assert Held(0) !in files;
  }

  class Card {
    var files: Files

    constructor (files: Files)
      ensures this.files == files
    {
      this.files := files;
    }

    /** Everything but the interrupted file is as it was. */
    twostate predicate OthersKept()
      reads this
    {
      forall n :: n in old(files) && n != Part ==> n in files && files[n] == old(files)[n]
    }

    /** The interrupted file is, as it was, under a quarantine name that was free. */
    twostate predicate MovedToHeld()
      reads this
    {
      Part in old(files) && exists k :: 0 <= k < HELD && Held(k) !in old(files) && files == (old(files) - {Part})[Held(k) := old(files)[Part]]
    }

    /** The interrupted file was held, or nothing changed because it could not be moved. */
    twostate predicate HeldIf(r: Outcome, moves: bool)
      reads this
    {
      if moves && CanHold(old(files)) then r == Quarantined && MovedToHeld() else r == Error && files == old(files)
    }

    /** Rename within the card: refused when the target exists. */
    method Rename(to: Name, works: bool) returns (ok: bool)
      requires to != Part
      modifies this
      ensures ok <==> works && Part in old(files) && to !in old(files)
      ensures files == if ok then (old(files) - {Part})[to := old(files)[Part]] else old(files)
    {
      ok := works && Part in files && to !in files;
      if ok {
        files := (files - {Part})[to := files[Part]];
      }
    }

    /** quarantine_move: the first free of the names, or nothing. */
    method Quarantine(works: bool) returns (ok: bool)
      requires Part in files
      modifies this
      ensures ok <==> works && CanHold(old(files))
      ensures if ok then MovedToHeld() else files == old(files)
    {
      for k := 0 to HELD
        invariant files == old(files) && forall j :: 0 <= j < k ==> Held(j) in files
      {
        if Held(k) !in files {
          ok := Rename(Held(k), works);
          return;
        }
      }
      ok := false;
    }

    /** rewrite_header_with_sync: a torn write leaves each header byte old or new. */
    method RewriteHeader(pcm: nat, calm: bool) returns (r: Outcome)
      requires Part in files && |files[Part]| >= HEADER_SIZE
      modifies this
      ensures calm ==> r == Recovered
      ensures r in {Recovered, Error, PowerCut} && OthersKept() && files.Keys == old(files.Keys)
      ensures var f, g := old(files[Part]), files[Part];
        |g| == |f| && g[HEADER_SIZE..] == f[HEADER_SIZE..] && (forall i :: 0 <= i < HEADER_SIZE ==> g[i] == f[i] || g[i] == Header(pcm)[i])
      ensures r == Recovered ==> files[Part][..HEADER_SIZE] == Header(pcm)
    {
      hide Header;
      var opens, synced, on: bool, wrote: seq<bool> := *, *, *, *;
      if !calm && !opens {
        return Error;
      }
      var f, h := files[Part], Header(pcm);
      if !calm && !synced && |wrote| == HEADER_SIZE {
        var torn := seq(HEADER_SIZE, i requires 0 <= i < HEADER_SIZE => if wrote[i] then h[i] else f[i]);
        files := files[Part := torn + f[HEADER_SIZE..]];
        return if on then Error else PowerCut;
      }
      files := files[Part := h + f[HEADER_SIZE..]];
      r := if calm || on then Recovered else PowerCut;
    }

    /** The best-effort truncation to the even size. */
    method CutTail(want: nat, works: bool)
      requires Part in files && |files[Part]| >= HEADER_SIZE
      modifies this
      ensures OthersKept() && files.Keys == old(files.Keys)
      ensures files[Part] == if works && |old(files[Part])| > want then old(files[Part])[..want] else old(files[Part])
    {
      if |files[Part]| > want && works {
        files := files[Part := files[Part][..want]];
      }
    }

    /** wav_recovery_recover_file. An interrupted recording stays on its way exactly unless the attempt
        takes it away, and then it is unchanged under a quarantine name. */
    method Recover(ghost p: seq<Byte>, works: Works, calm: bool) returns (r: Outcome)
      requires calm ==> works == ALL_WORKS
      modifies this
      ensures OthersKept()
      ensures works.part && Part in old(files) && works.wav && Wav in old(files) ==> HeldIf(r, works.moves)
      ensures works.part && Part in old(files) && works.size && |old(files)[Part]| < HEADER_SIZE ==> HeldIf(r, works.moves)
      ensures works.part && Part in old(files) && works.opens && works.header && |old(files)[Part]| >= HEADER_SIZE && !ValidHeader(old(files)[Part][..HEADER_SIZE]) ==> HeldIf(r, works.moves)
      ensures Part !in old(files) && works.wav ==> files == old(files) && r == if Wav in files then Recovered else Error
      ensures Decide(old(files), works) == Already <==> r == Recovered && files == old(files)
      ensures r == Recovered && works.part ==> Part !in files && Wav in files
      ensures Interrupted(p) && Progress(old(files), p) && r == Recovered ==> Part !in files
      ensures Decide(old(files), works) == Leave ==> r == Error && files == old(files)
      ensures Decide(old(files), works) == Hold ==> if works.moves && CanHold(old(files)) then r == Quarantined && MovedToHeld() else r == Error && files == old(files)
      ensures Interrupted(p) && Progress(old(files), p) ==> (Progress(files, p) <==> !Takes(old(files), works))
      ensures Interrupted(p) && Progress(old(files), p) ==> (r == Quarantined <==> Takes(old(files), works)) && (r == Quarantined ==> MovedToHeld())
      ensures Interrupted(p) && Progress(old(files), p) && r == Recovered && Part in old(files) ==>
        (FinalizedValid(files[Wav]) <==> (|old(files[Part])| - HEADER_SIZE) % SAMPLE_BYTES == 0 || works.cuts)
      ensures calm && Interrupted(p) && Progress(old(files), p) ==> r == Recovered && (Part in old(files) ==> files[Wav] == Finished(p))
    {
      hide Header, ValidHeader, FinalizedValid, Finished;
      match Decide(files, works) {
        case Already => return Recovered;
        case Leave => return Error;
        case Hold =>
          var ok := Quarantine(works.moves);
          return if ok then Quarantined else Error;
        case Finish =>
          r := FinishFile(p, works, calm);
      }
    }

    /** The rename to the finalized name, and quarantine if that name turns out to be taken. */
    method Publish(moves: bool, calm: bool) returns (r: Outcome)
      requires Part in files
      modifies this
      ensures calm && Wav !in old(files) ==> r == Recovered
      ensures r == Recovered ==> Wav !in old(files) && files == (old(files) - {Part})[Wav := old(files)[Part]]
      ensures r == Quarantined ==> Wav in old(files) && MovedToHeld()
      ensures r == Recovered || r == Quarantined || (r == Error && files == old(files))
    {
      hide CanHold;
      var works, exist: bool := *, *;
      var ok := Rename(Wav, calm || works);
      if ok {
        return Recovered;
      }
      if Wav in files && exist {
        ok := Quarantine(moves);
        return if ok then Quarantined else Error;
      }
      r := Error;
    }

    /** From the header rewrite on. */
    method FinishFile(ghost p: seq<Byte>, works: Works, calm: bool) returns (r: Outcome)
      requires Decide(files, works) == Finish && (calm ==> works == ALL_WORKS)
      modifies this
      ensures OthersKept()
      ensures r == Recovered ==> Part !in files && Wav in files && Wav !in old(files)
      ensures Interrupted(p) && Progress(old(files), p) ==> Progress(files, p) && r != Quarantined
      ensures Interrupted(p) && Progress(old(files), p) && r == Recovered ==> (FinalizedValid(files[Wav]) <==> (|old(files[Part])| - HEADER_SIZE) % SAMPLE_BYTES == 0 || works.cuts)
      ensures calm && Interrupted(p) && Progress(old(files), p) ==> r == Recovered && files[Wav] == Finished(p)
    {
      hide Header, ValidHeader, FinalizedValid, Finished, OnTheWay, Done, CanHold, WholeSamples, WantedSize;
      var on: bool := *;
      ghost var f := files[Part];
      var pcm, want := WholeSamples(|files[Part]|), WantedSize(|files[Part]|);
      if Interrupted(p) && Progress(files, p) {
        SizesAgree(p, f);
      }
      r := RewriteHeader(pcm, calm);
      if Interrupted(p) && Progress(old(files), p) {
        HeaderStep(p, f, files[Part], pcm);
      }
      if r != Recovered {
        return;
      }
      ghost var g := files[Part];
      CutTail(want, works.cuts);
      if Interrupted(p) && Progress(old(files), p) {
        TailStep(p, g, files[Part], works.cuts);
      }
      if !calm && !on {
        return PowerCut;
      }
      r := Publish(works.moves, calm);
    }

    /** Recoveries cut or failing anywhere, any number of times, and then a calm one. If every attempt
        could read size and header, the finalized file is the recording, and a finalized WAV exactly if
        it had no torn byte or an attempt cut it off. Otherwise an attempt may have taken the recording
        away; it is then whole under a quarantine name, and no later attempt finds it. */
    method RecoverUntilDone(p: seq<Byte>, attempts: seq<Works>) returns (r: Outcome)
      requires Interrupted(p) && Progress(files, p)
      modifies this
      ensures OthersKept()
      ensures (forall a :: 0 <= a < |attempts| ==> !Misreads(attempts[a])) ==> r == Recovered
      ensures r == Recovered <==> Progress(files, p)
      ensures r == Recovered ==> Wav in files && Part !in files && Done(p, files[Wav])
      ensures r == Recovered ==> (FinalizedValid(files[Wav]) <==> |p| == Even(p) || |files[Wav]| < |p|)
      ensures r != Recovered ==> r == Error && Part !in files && Wav !in files
      ensures r != Recovered ==> exists k :: Held(k) in files && Held(k) !in old(files) && OnTheWay(p, files[Held(k)])
    {
      hide Progress, Done, FinalizedValid, OnTheWay;
      r := Error;
      for a := 0 to |attempts|
        invariant OthersKept() && Progress(files, p)
      {
        ghost var before := files;
        r := Recover(p, attempts[a], false);
        if r == Recovered {
          AtTheEnd(files, p);
          return;
        }
        if r == Quarantined {
          TakenWhole(before, p);
          r := Recover(p, ALL_WORKS, true);
          return;
        }
      }
      r := Recover(p, ALL_WORKS, true);
      AtTheEnd(files, p);
    }
  }

  /** What quarantine takes from a card on its way is the recording, and the finalized name is free. */
  lemma TakenWhole(files: Files, p: seq<Byte>)
    requires HEADER_SIZE <= |p| && Progress(files, p) && Part in files
    ensures OnTheWay(p, files[Part]) && Wav !in files
  {
  }

  lemma AtTheEnd(files: Files, p: seq<Byte>)
    requires Interrupted(p) && Progress(files, p) && Part !in files
    ensures Wav in files && Done(p, files[Wav]) && (FinalizedValid(files[Wav]) <==> |p| == Even(p) || |files[Wav]| < |p|)
  {
    DoneIsFinalized(p, files[Wav]);
  }

  lemma SizesAgree(p: seq<Byte>, f: seq<Byte>)
    requires Interrupted(p) && OnTheWay(p, f)
    ensures WholeSamples(|f|) == Even(p) - HEADER_SIZE && WantedSize(|f|) == Even(p)
  {
  }

  /** A torn or complete new header keeps the file on the way. */
  lemma HeaderStep(p: seq<Byte>, f: seq<Byte>, g: seq<Byte>, pcm: nat)
    requires Interrupted(p) && OnTheWay(p, f) && pcm == Even(p) - HEADER_SIZE
    requires |g| == |f| && g[HEADER_SIZE..] == f[HEADER_SIZE..]
    requires forall i :: 0 <= i < HEADER_SIZE ==> g[i] == f[i] || g[i] == Header(pcm)[i]
    ensures OnTheWay(p, g)
  {
    hide Header, ValidHeader;
    BuiltIsValid(pcm);
    TornValid(f[..HEADER_SIZE], Header(pcm), g[..HEADER_SIZE]);
  }

  lemma BuiltIsValid(pcm: nat)
    ensures ValidHeader(Header(pcm))
  {
    hide Header, ValidHeader;
    ValidExactly(Header(pcm), pcm);
  }

  /** Cutting the torn byte, or failing to, behind the new header leaves a done file; it is a finalized
      recording exactly if there was no torn byte or it was cut. */
  lemma TailStep(p: seq<Byte>, f: seq<Byte>, g: seq<Byte>, cuts: bool)
    requires Interrupted(p) && OnTheWay(p, f) && f[..HEADER_SIZE] == Header(Even(p) - HEADER_SIZE)
    requires g == if cuts && |f| > Even(p) then f[..Even(p)] else f
    ensures OnTheWay(p, g) && Done(p, g)
    ensures FinalizedValid(g) <==> (|f| - HEADER_SIZE) % SAMPLE_BYTES == 0 || cuts
    ensures cuts ==> g == Finished(p)
  {
    hide ValidHeader, Header, FinalizedValid, Finished;
    if g != f {
      assert g[HEADER_SIZE..] == f[HEADER_SIZE..][..Even(p) - HEADER_SIZE];
      assert g[..HEADER_SIZE] == f[..HEADER_SIZE];
    }
    DoneIsFinalized(p, g);
  }
}
