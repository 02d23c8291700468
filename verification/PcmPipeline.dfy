/** The ping-pong buffer between the microphone and the card: two slots filled in turn, drained
    oldest first. It is a bounded queue of bytes. */
module PcmPipeline {
  import opened Audio
  import opened Wrappers
  import opened Bytes

  const BUFFER_BYTES: nat := 32768

  // ----- The two slots as values -----

  datatype Turn = Turn(fill: seq<nat>, full: seq<bool>, read: int, write: int)

  /** A slot is full exactly when it has no room; the oldest full slot is the one to read, and the
      slot to write is the other one unless both or none are full. */
  predicate InTurn(t: Turn) {
    && |t.fill| == |t.full| == 2 && t.read in {0, 1} && t.write in {0, 1}
    && (forall i :: 0 <= i < 2 ==> t.fill[i] <= BUFFER_BYTES && t.fill[i] % SAMPLE_BYTES == 0)
    && (forall i :: 0 <= i < 2 ==> (t.full[i] <==> t.fill[i] == BUFFER_BYTES))
    && (t.full[1 - t.read] ==> t.full[t.read])
    && (t.write == t.read <==> t.full[0] == t.full[1])
    && (!t.full[t.read] ==> t.fill[1 - t.read] == 0)
  }

  predicate TwoSlots(s: seq<seq<Byte>>) {
    |s| == 2 && |s[0]| == |s[1]| == BUFFER_BYTES
  }

  /** The full slots, oldest first. */
  function FullSlots(s: seq<seq<Byte>>, t: Turn): seq<Byte>
    requires InTurn(t) && TwoSlots(s)
  {
    if !t.full[t.read] then [] else if !t.full[1 - t.read] then s[t.read] else s[t.read] + s[1 - t.read]
  }

  /** The slot being filled, as far as it is filled. */
  function Partial(s: seq<seq<Byte>>, t: Turn): seq<Byte>
    requires InTurn(t) && TwoSlots(s)
  {
    if t.full[0] && t.full[1] then [] else s[t.write][..t.fill[t.write]]
  }

  function Queue(s: seq<seq<Byte>>, t: Turn): seq<Byte>
    requires InTurn(t) && TwoSlots(s)
  {
    FullSlots(s, t) + Partial(s, t)
  }

  /** None of the three "try the other slot" fallbacks can be taken. */
  lemma FallbacksUnreachable(t: Turn)
    requires InTurn(t)
    ensures !(t.full[0] && t.full[1]) ==> !t.full[t.write]
    ensures t.full[0] || t.full[1] ==> t.full[t.read]
  {
  }

  /** The turn after `take` more bytes in the slot being written. */
  function Filled(t: Turn, take: nat): Turn
    requires InTurn(t)
  {
    var n := t.fill[t.write] + take;
    if n == BUFFER_BYTES then Turn(t.fill[t.write := n], t.full[t.write := true], t.read, 1 - t.write)
    else t.(fill := t.fill[t.write := n])
  }

  lemma FillStep(s: seq<seq<Byte>>, s': seq<seq<Byte>>, t: Turn, take: nat, piece: seq<Byte>)
    requires InTurn(t) && TwoSlots(s) && TwoSlots(s') && !t.full[t.write]
    requires take % SAMPLE_BYTES == 0 && t.fill[t.write] + take <= BUFFER_BYTES
    requires s'[1 - t.write] == s[1 - t.write] && s'[t.write][..t.fill[t.write] + take] == s[t.write][..t.fill[t.write]] + piece
    ensures InTurn(Filled(t, take)) && Queue(s', Filled(t, take)) == Queue(s, t) + piece
    ensures t.full[t.read] ==> Filled(t, take).full[t.read] && s'[t.read] == s[t.read]
  {
    FilledInTurn(t, take);
    var t', before := Filled(t, take), s[t.write][..t.fill[t.write]];
    if t.fill[t.write] + take == BUFFER_BYTES {
      assert s'[t.write] == before + piece;
      assert Partial(s', t') == [];
      assert FullSlots(s', t') == FullSlots(s, t) + (before + piece);
    } else {
      assert FullSlots(s', t') == FullSlots(s, t) && Partial(s', t') == before + piece;
    }
  }

  lemma FilledInTurn(t: Turn, take: nat)
    requires InTurn(t) && !t.full[t.write] && take % SAMPLE_BYTES == 0 && t.fill[t.write] + take <= BUFFER_BYTES
    ensures InTurn(Filled(t, take))
  {
  }

  /** The turn after the oldest full slot is given back. */
  function Released(t: Turn): Turn
    requires InTurn(t)
  {
    Turn(t.fill[t.read := 0], t.full[t.read := false], 1 - t.read, t.write)
  }

  /** Giving back the oldest full slot takes exactly its bytes off the front of the queue. */
  lemma ReleaseStep(s: seq<seq<Byte>>, t: Turn)
    requires InTurn(t) && TwoSlots(s) && t.full[t.read]
    ensures InTurn(Released(t)) && Queue(s, t) == s[t.read] + Queue(s, Released(t))
  {
    var t' := Released(t);
    assert InTurn(t');
    if t.full[1 - t.read] {
      assert Queue(s, t) == s[t.read] + s[1 - t.read] && Partial(s, t') == [];
    } else {
      assert Partial(s, t') == Partial(s, t);
    }
  }

  function Min(a: nat, b: nat): nat {
    if a < b then a else b
  }

  /** The bytes that can still be taken in. */
  function Free(t: Turn): nat
    requires InTurn(t)
  {
    2 * BUFFER_BYTES - t.fill[0] - t.fill[1]
  }

  lemma QueueSize(s: seq<seq<Byte>>, t: Turn)
    requires InTurn(t) && TwoSlots(s)
    ensures |Queue(s, t)| + Free(t) == 2 * BUFFER_BYTES
  {
  }

  /** Adding to a counter that wraps. */
  function Bump(counter: nat, n: nat): (r: nat)
    ensures r < UINT32
  {
    (counter + n) % UINT32
  }

  class Pipeline {
    const slot0: array<Byte>
    const slot1: array<Byte>
    var fill: seq<nat>
    var full: seq<bool>
    var readIndex: int
    var writeIndex: int
    var samplesCaptured: nat
    var chunksWritten: nat
    var overflows: nat
    var dropBytes: nat
    var dropSamples: nat
    /** Every sample byte taken in, and every byte drained, since the start. */
    ghost var accepted: seq<Byte>
    ghost var released: seq<Byte>

    function Slot(i: int): array<Byte> {
      if i == 0 then slot0 else slot1
    }

    ghost function Slots(): seq<seq<Byte>>
      reads slot0, slot1
    {
      [slot0[..], slot1[..]]
    }

    ghost function Now(): Turn
      reads this
    {
      Turn(fill, full, readIndex, writeIndex)
    }

    ghost predicate Valid()
      reads this, slot0, slot1
    {
      && slot0 != slot1 && slot0.Length == slot1.Length == BUFFER_BYTES
      && samplesCaptured < UINT32
      && InTurn(Now()) && accepted == released + Queue(Slots(), Now())
    }

    constructor (backing0: array<Byte>, backing1: array<Byte>)
      requires backing0 != backing1 && backing0.Length == backing1.Length == BUFFER_BYTES
      ensures Valid() && slot0 == backing0 && slot1 == backing1 && accepted == released == []
    {
      slot0, slot1 := backing0, backing1;
      fill, full, readIndex, writeIndex := [0, 0], [false, false], 0, 0;
      samplesCaptured, chunksWritten, overflows, dropBytes, dropSamples := 0, 0, 0, 0, 0;
      accepted, released := [], [];
    }

    static method Copy(slot: array<Byte>, used: nat, data: seq<Byte>, offset: nat, take: nat)
      requires used + take <= slot.Length && offset + take <= |data|
      modifies slot
      ensures slot[..used + take] == old(slot[..used]) + data[offset..offset + take]
    {
      ghost var before := slot[..used];
      for i := 0 to take
        invariant forall k :: 0 <= k < used ==> slot[k] == before[k]
        invariant forall k :: used <= k < used + i ==> slot[k] == data[offset + (k - used)]
      {
        slot[used + i] := data[offset + i];
      }
      Appended(slot[..], before, data, offset, take);
    }

    /** Copy `take` bytes behind what the write slot holds. */
    method Store(data: seq<Byte>, offset: nat, take: nat)
      requires Valid() && !full[writeIndex] && offset + take <= |data|
      requires take % SAMPLE_BYTES == 0 && fill[writeIndex] + take <= BUFFER_BYTES
      modifies this, slot0, slot1
      ensures Valid() && accepted == old(accepted) + data[offset..offset + take] && released == old(released)
      ensures Now() == Filled(old(Now()), take)
      ensures old(full[readIndex]) ==> Slot(readIndex)[..] == old(Slot(readIndex)[..])
      ensures samplesCaptured == Bump(old(samplesCaptured), take / SAMPLE_BYTES)
      ensures unchanged(`chunksWritten, `overflows, `dropBytes, `dropSamples)
    {
      hide Queue, Bump, InTurn;
      Halves(Now());
      var w := writeIndex;
      ghost var s, t := Slots(), Now();
      Copy(Slot(w), fill[w], data, offset, take);
      FillStep(s, Slots(), t, take, data[offset..offset + take]);
      fill := fill[w := fill[w] + take];
      samplesCaptured := Bump(samplesCaptured, take / SAMPLE_BYTES);
      if fill[w] == BUFFER_BYTES {
        full := full[w := true];
        writeIndex := 1 - w;
      }
      accepted := accepted + data[offset..offset + take];
    }

    /** The slot handed out by the last peek is still there. */
    twostate predicate StillThere()
      requires |old(full)| == 2 && old(readIndex) in {0, 1}
      reads this, slot0, slot1
    {
      old(full[readIndex]) ==>
        |full| == 2 && readIndex == old(readIndex) && full[readIndex] && Slot(readIndex)[..] == old(Slot(readIndex)[..])
    }

    /** One round of the loop: fill what fits into the slot being written. */
    method Round(data: seq<Byte>, offset: nat, usable: nat) returns (take: nat)
      requires Valid() && !(full[0] && full[1]) && offset < usable <= |data| && offset % SAMPLE_BYTES == usable % SAMPLE_BYTES == 0
      modifies this, slot0, slot1
      ensures Valid() && released == old(released) && 0 < take <= usable - offset && take % SAMPLE_BYTES == 0
      ensures accepted == old(accepted) + data[offset..offset + take] && Free(Now()) + take == Free(old(Now()))
      ensures StillThere() && samplesCaptured == Bump(old(samplesCaptured), take / SAMPLE_BYTES)
      ensures unchanged(`chunksWritten, `overflows, `dropBytes, `dropSamples)
    {
      hide Queue, Bump;
      FallbacksUnreachable(Now());
      Halves(Now());
      writeIndex := if full[writeIndex] then 1 - writeIndex else writeIndex;
      take := Min(usable - offset, BUFFER_BYTES - fill[writeIndex]);
      FreeAfter(Now(), take);
      Store(data, offset, take);
    }

    /** Both slots are full: count what is lost. */
    method Drop(rest: nat)
      modifies this`overflows, this`dropBytes, this`dropSamples
      ensures overflows == Bump(old(overflows), 1) && dropBytes == Bump(old(dropBytes), rest)
      ensures dropSamples == Bump(old(dropSamples), rest / SAMPLE_BYTES)
    {
      overflows := Bump(overflows, 1);
      dropBytes := Bump(dropBytes, rest);
      dropSamples := Bump(dropSamples, rest / SAMPLE_BYTES);
    }

    /** pcm_pipeline_produce: take in whole samples while there is room, drop and count the rest.
        Returns how many bytes were not taken in. */
    method Produce(data: seq<Byte>) returns (left: nat)
      requires Valid()
      modifies this, slot0, slot1
      ensures Valid() && released == old(released) && StillThere() && unchanged(`chunksWritten)
      ensures var usable := |data| - |data| % SAMPLE_BYTES; var taken := Min(usable, Free(old(Now())));
        left == |data| - taken && accepted == old(accepted) + data[..taken] && Counted(old(Counters()), Counters(), usable, taken)
    {
      hide Queue, Bump, InTurn;
      var usable, offset := |data| - |data| % SAMPLE_BYTES, 0;
      ghost var room := Free(Now());
      assert data[..0] == [];
      BumpNone(samplesCaptured);
      Halves(Now());
      while offset < usable
        invariant Valid() && released == old(released) && unchanged(`overflows, `dropBytes, `dropSamples, `chunksWritten)
        invariant offset <= usable && offset % SAMPLE_BYTES == 0 && Free(Now()) + offset == room
        invariant accepted == old(accepted) + data[..offset]
        invariant samplesCaptured == Bump(old(samplesCaptured), offset / SAMPLE_BYTES) && StillThere()
        decreases usable - offset
      {
        Halves(Now());
        if full[0] && full[1] {
          Drop(usable - offset);
          return |data| - offset;
        }
        var take := Round(data, offset, usable);
        BumpTwice(old(samplesCaptured), offset / SAMPLE_BYTES, take / SAMPLE_BYTES);
        assert data[..offset] + data[offset..offset + take] == data[..offset + take];
        offset := offset + take;
      }
      Halves(Now());
      left := |data| - offset;
    }

    ghost function Counters(): (nat, nat, nat, nat)
      reads this
    {
      (samplesCaptured, overflows, dropBytes, dropSamples)
    }

    /** pcm_pipeline_peek_full: the oldest full slot, which holds the front of the queue. */
    method PeekFull() returns (slot: Option<array<Byte>>)
      requires Valid()
      ensures slot.Some? <==> full[0] || full[1]
      ensures slot.Some? ==> slot.value == Slot(readIndex) && full[readIndex] && slot.value[..] <= Queue(Slots(), Now())
    {
      FallbacksUnreachable(Now());
      var index := if full[readIndex] then readIndex else 1 - readIndex;
      slot := if full[index] then Some(Slot(index)) else None;
    }

    /** pcm_pipeline_release_full: drain the slot that was peeked. */
    method ReleaseFull()
      requires Valid()
      modifies this
      ensures Valid() && accepted == old(accepted)
      ensures old(full[0] || full[1]) ==>
        released == old(released) + old(Slot(readIndex)[..]) && chunksWritten == Bump(old(chunksWritten), 1)
        && !full[old(readIndex)] && fill[old(readIndex)] == 0 && full[1 - old(readIndex)] == old(full[1 - readIndex])
      ensures !old(full[0] || full[1]) ==> unchanged(this)
      ensures Counters() == old(Counters())
    {
      FallbacksUnreachable(Now());
      var index := if full[readIndex] then readIndex else 1 - readIndex;
      if !full[index] {
        return;
      }
      hide Queue;
      ReleaseStep(Slots(), Now());
      released := released + Slot(index)[..];
      full, fill := full[index := false], fill[index := 0];
      readIndex := 1 - index;
      chunksWritten := Bump(chunksWritten, 1);
    }
  }

  /** A sequence that starts with `before` and goes on with the piece of `data` starts with both. */
  lemma Appended(s: seq<Byte>, before: seq<Byte>, data: seq<Byte>, offset: nat, take: nat)
    requires |before| + take <= |s| && offset + take <= |data|
    requires forall k :: 0 <= k < |before| ==> s[k] == before[k]
    requires forall k :: |before| <= k < |before| + take ==> s[k] == data[offset + (k - |before|)]
    ensures s[..|before| + take] == before + data[offset..offset + take]
  {
    var piece := data[offset..offset + take];
    forall k | 0 <= k < |before| + take ensures s[k] == (before + piece)[k] {
      if k >= |before| {
        assert piece[k - |before|] == data[offset + (k - |before|)];
      }
    }
  }

  /** What a call that was offered `usable` bytes of whole samples and took `taken` of them counts. */
  predicate Counted(a: (nat, nat, nat, nat), b: (nat, nat, nat, nat), usable: nat, taken: nat)
    requires taken <= usable
  {
    b.0 == Bump(a.0, taken / SAMPLE_BYTES) &&
    if taken == usable then (b.1, b.2, b.3) == (a.1, a.2, a.3)
    else (b.1, b.2, b.3) == (Bump(a.1, 1), Bump(a.2, usable - taken), Bump(a.3, (usable - taken) / SAMPLE_BYTES))
  }

  lemma BumpNone(counter: nat)
    requires counter < UINT32
    ensures Bump(counter, 0) == counter
  {
  }

  lemma BumpTwice(counter: nat, a: nat, b: nat)
    ensures Bump(Bump(counter, a), b) == Bump(counter, a + b)
  {
  }

  /** In turn: both slots are full when nothing is free, and the write slot has room otherwise. */
  lemma Halves(t: Turn)
    requires InTurn(t)
    ensures t.write in {0, 1} && t.read in {0, 1} && |t.full| == |t.fill| == 2 && t.fill[t.write] % SAMPLE_BYTES == 0
    ensures if t.full[0] && t.full[1] then Free(t) == 0 else !t.full[t.write] && t.fill[t.write] < BUFFER_BYTES
  {
  }

  lemma FreeAfter(t: Turn, take: nat)
    requires InTurn(t) && !t.full[t.write] && take % SAMPLE_BYTES == 0 && t.fill[t.write] + take <= BUFFER_BYTES
    ensures InTurn(Filled(t, take)) && Free(Filled(t, take)) + take == Free(t)
  {
    FilledInTurn(t, take);
  }
}
