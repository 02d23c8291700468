/** The command line framer of the serial protocol: a bounded buffer that behaves like splitting the
    whole byte stream at line feeds. */
module LineFramer {
  import opened Bytes

  const LF: Byte := 10
  const CR: Byte := 13
  const MAX_LINE: nat := 1024

  datatype Frame = Line(payload: seq<Byte>) | TooLarge

  // ----- Unbounded specification -----

  function StripCr(content: seq<Byte>): seq<Byte> {
    if content != [] && content[|content| - 1] == CR then content[..|content| - 1] else content
  }

  /** The frame for the bytes between two line feeds. */
  function FrameOf(content: seq<Byte>): Frame {
    var payload := StripCr(content);
    if |payload| <= MAX_LINE then Line(payload) else TooLarge
  }

  /** The position of the first line feed, or the length. */
  function FirstLf(s: seq<Byte>): (i: nat)
    ensures i <= |s| && (i < |s| ==> s[i] == LF) && forall k :: 0 <= k < i ==> s[k] != LF
  {
    if s == [] || s[0] == LF then 0 else 1 + FirstLf(s[1..])
  }

  /** The frames of a stream: one for each line feed. */
  function Frames(s: seq<Byte>): seq<Frame>
    decreases |s|
  {
    var i := FirstLf(s);
    if i == |s| then [] else [FrameOf(s[..i])] + Frames(s[i + 1..])
  }

  /** What follows the last line feed. */
  function Rest(s: seq<Byte>): seq<Byte>
    decreases |s|
  {
    var i := FirstLf(s);
    if i == |s| then s else Rest(s[i + 1..])
  }

  lemma {:induction false} FirstLfAt(s: seq<Byte>, i: nat)
    requires i <= |s| && (i < |s| ==> s[i] == LF) && forall k :: 0 <= k < i ==> s[k] != LF
    ensures FirstLf(s) == i
  {
    if i > 0 {
      FirstLfAt(s[1..], i - 1);
    }
  }

  lemma FramesStep(s: seq<Byte>, i: nat)
    requires i < |s| && s[i] == LF && forall k :: 0 <= k < i ==> s[k] != LF
    ensures Frames(s) == [FrameOf(s[..i])] + Frames(s[i + 1..]) && Rest(s) == Rest(s[i + 1..])
  {
    FirstLfAt(s, i);
  }

  lemma FramesNone(s: seq<Byte>)
    requires forall k :: 0 <= k < |s| ==> s[k] != LF
    ensures Frames(s) == [] && Rest(s) == s
  {
    FirstLfAt(s, |s|);
  }

  /** A frame depends only on the bytes since the line feed before it. */
  lemma {:induction false} FramesSplit(a: seq<Byte>, b: seq<Byte>)
    ensures Frames(a + [LF] + b) == Frames(a + [LF]) + Frames(b)
    ensures Rest(a + [LF] + b) == Rest(b)
    decreases |a|
  {
    hide Frames, Rest, FrameOf;
    var s, t, i := a + [LF] + b, a + [LF], FirstLf(a);
    FramesStep(s, i);
    FramesStep(t, i);
    assert s[..i] == t[..i];
    if i == |a| {
      assert s[i + 1..] == b && t[i + 1..] == [];
      FramesNone([]);
    } else {
      FramesSplit(a[i + 1..], b);
      assert s[i + 1..] == a[i + 1..] + [LF] + b && t[i + 1..] == a[i + 1..] + [LF];
    }
  }

  /** One more byte: a line feed completes a frame, any other byte extends the rest. */
  lemma {:induction false} OneMore(s: seq<Byte>, byte: Byte)
    ensures Frames(s + [byte]) == Frames(s) + (if byte == LF then [FrameOf(Rest(s))] else [])
    ensures Rest(s + [byte]) == if byte == LF then [] else Rest(s) + [byte]
    decreases |s|
  {
    hide Frames, Rest, FrameOf;
    var t, i := s + [byte], FirstLf(s);
    if i < |s| {
      FramesStep(s, i);
      FramesStep(t, i);
      OneMore(s[i + 1..], byte);
      assert t[..i] == s[..i] && t[i + 1..] == s[i + 1..] + [byte];
    } else {
      FramesNone(s);
      if byte == LF {
        FramesStep(t, i);
        assert t[..i] == s && t[i + 1..] == [];
        FramesNone([]);
      } else {
        FramesNone(t);
      }
    }
  }

  // ----- The bounded buffer -----

  class Framer {
    const line: array<Byte>
    var lineLen: nat
    var oversized: bool
    ghost var stream: seq<Byte>

    /** The buffer holds as much of the unfinished line as fits; `oversized` says that more came. */
    ghost predicate Valid()
      reads this, line
    {
      && line.Length == MAX_LINE + 1
      && lineLen == (if |Rest(stream)| <= MAX_LINE + 1 then |Rest(stream)| else MAX_LINE + 1)
      && line[..lineLen] == Rest(stream)[..lineLen]
      && (oversized <==> |Rest(stream)| > MAX_LINE + 1)
    }

    constructor ()
      ensures Valid() && stream == [] && fresh(line)
    {
      line := new Byte[MAX_LINE + 1](_ => 0);
      lineLen, oversized, stream := 0, false, [];
    }

    /** usb_cdc_protocol_framer_feed: the frames returned so far are those of the stream. */
    method Feed(byte: Byte) returns (frame: seq<Frame>)
      requires Valid()
      modifies this, line
      ensures Valid() && stream == old(stream) + [byte]
      ensures Frames(stream) == Frames(old(stream)) + frame
    {
      hide Frames, Rest;
      ghost var before := Rest(stream);
      OneMore(stream, byte);
      stream := stream + [byte];
      if byte != LF {
        if !oversized {
          if lineLen < MAX_LINE + 1 {
            line[lineLen] := byte;
            lineLen := lineLen + 1;
            assert line[..lineLen] == before + [byte];
          } else {
            oversized := true;
          }
        }
        return [];
      }
      var payloadLen := lineLen;
      if payloadLen != 0 && line[payloadLen - 1] == CR {
        payloadLen := payloadLen - 1;
      }
      var tooLarge := oversized || payloadLen > MAX_LINE;
      if !oversized {
        assert line[..lineLen] == before && line[..payloadLen] == StripCr(before);
      }
      frame := [if tooLarge then TooLarge else Line(line[..payloadLen])];
      lineLen, oversized := 0, false;
    }
  }

  /** Feeding a whole stream yields the frames of the unbounded specification. */
  method FeedAll(bytes: seq<Byte>) returns (frames: seq<Frame>)
    ensures frames == Frames(bytes)
  {
    var framer := new Framer();
    hide Frames, Rest;
    FramesNone([]);
    frames := [];
    for i := 0 to |bytes|
      invariant fresh(framer) && fresh(framer.line) && framer.Valid() && framer.stream == bytes[..i] && frames == Frames(bytes[..i])
    {
      var more := framer.Feed(bytes[i]);
      assert bytes[..i] + [bytes[i]] == bytes[..i + 1];
      frames := frames + more;
    }
    assert bytes[..|bytes|] == bytes;
  }
}
