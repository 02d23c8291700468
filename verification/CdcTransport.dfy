/** Answering a serial command: the response is queued byte by byte while its session lasts, and a
    release tears the USB stack down only after the last transfer is proved complete. */
module CdcTransport {
  import opened Wrappers
  import opened Bytes
  import Ownership

  const LF: Byte := 10
  const TICKS: nat := 0x1_0000_0000

  /** What one call into the transport observes. Everything may change between two calls. */
  datatype Mood = Mood(
    connected: bool, generation: nat, take: nat, flushes: bool,
    sampled: bool, callbacks: nat, drained: bool, busy: bool, ticks: nat)

  /** usb_cdc_tx_final_in_complete. */
  predicate FinalInComplete(before: nat, m: Mood) {
    m.sampled && m.callbacks != before && m.drained && !m.busy
  }

  /** A host that stays in the session and takes one byte at a time. */
  predicate Serves(script: seq<Mood>, generation: nat) {
    forall i :: 0 <= i < |script| ==> script[i].connected && script[i].generation == generation && script[i].take == 1 && script[i].flushes && script[i].ticks == 0
  }

  /** The last transfer is complete whenever it is sampled. */
  predicate Spent(script: seq<Mood>, before: nat) {
    forall i :: 0 <= i < |script| ==> script[i].sampled && script[i].callbacks != before && script[i].drained && !script[i].busy
  }

  /** The transport: a finite script of observations, after which the device is disconnected. */
  class Transport {
    var script: seq<Mood>
    /** What was queued to the class FIFO, in order, and the observations made so far. */
    var queued: seq<Byte>
    ghost var seen: seq<Mood>

    constructor (script: seq<Mood>)
      ensures this.script == script && queued == [] && seen == []
    {
      this.script, queued, seen := script, [], [];
    }

    /** One observation; none is left when the script is over. */
    method Observe() returns (m: Option<Mood>)
      modifies this`script, this`seen
      ensures m.Some? <==> old(script) != []
      ensures m.Some? ==> script == old(script)[1..] && m.value == old(script)[0] && seen == old(seen) + [m.value]
      ensures m.None? ==> script == old(script) && seen == old(seen)
    {
      if script == [] {
        return None;
      }
      m := Some(script[0]);
      seen := seen + [script[0]];
      script := script[1..];
    }

    method SessionCurrent(generation: nat) returns (current: bool)
      modifies this`script, this`seen
      ensures old(seen) <= seen && |script| <= |old(script)| && (current ==> |script| < |old(script)|)
      ensures current ==> old(seen) < seen && seen[|seen| - 1].generation == generation
      ensures script == old(script)[if old(script) == [] then 0 else 1..]
      ensures old(script) != [] && old(script)[0].generation == generation ==> current
    {
      var m := Observe();
      current := m.Some? && m.value.generation == generation;
    }

    /** tx_is_current */
    method Current(generation: nat) returns (current: bool)
      modifies this`script, this`seen
      ensures old(seen) <= seen && |script| <= |old(script)| && (current ==> |script| < |old(script)|)
      ensures current ==> seen != [] && seen[|seen| - 1].generation == generation
      ensures Serves(old(script), generation) && |old(script)| >= 2 ==> current && script == old(script)[2..]
    {
      var m := Observe();
      if m.None? || !m.value.connected {
        return false;
      }
      current := SessionCurrent(generation);
    }

    /** The class FIFO takes some of the bytes from the front; a broken one claims more than offered. */
    method Queue(data: seq<Byte>) returns (n: nat)
      modifies this`script, this`seen, this`queued
      ensures old(seen) <= seen && |script| <= |old(script)|
      ensures queued == old(queued) + data[..if n <= |data| then n else |data|]
      ensures old(script) != [] ==> n == old(script)[0].take && script == old(script)[1..]
    {
      var m := Observe();
      n := if m.Some? then m.value.take else 0;
      queued := queued + data[..if n <= |data| then n else |data|];
    }

    method Flush() returns (ok: bool)
      modifies this`script, this`seen
      ensures old(seen) <= seen && |script| <= |old(script)|
      ensures ok ==> seen != [] && seen[|seen| - 1].flushes
      ensures old(script) != [] ==> ok == old(script)[0].flushes && script == old(script)[1..]
    {
      var m := Observe();
      ok := m.Some? && m.value.flushes;
    }

    method Sample(before: nat) returns (ready: bool)
      modifies this`script, this`seen
      ensures old(seen) <= seen && |script| <= |old(script)| && (ready ==> |script| < |old(script)|)
      ensures ready ==> old(seen) < seen && FinalInComplete(before, seen[|seen| - 1])
      ensures old(script) != [] ==> ready == FinalInComplete(before, old(script)[0]) && script == old(script)[1..]
    {
      var m := Observe();
      ready := m.Some? && FinalInComplete(before, m.value);
    }

    method Now() returns (ticks: nat)
      modifies this`script, this`seen
      ensures old(seen) <= seen && |script| <= |old(script)|
      ensures old(script) != [] ==> ticks == old(script)[0].ticks && script == old(script)[1..]
    {
      var m := Observe();
      ticks := if m.Some? then m.value.ticks else 0;
    }

    /** Its last part: the session once more and, after the grace period, the last sample. */
    method LastSample(generation: nat, before: nat, ghost s1: seq<Mood>, ghost from: nat) returns (ok: bool)
      requires from < |s1| && s1 < seen && FinalInComplete(before, s1[|s1| - 1]) && FinalInComplete(before, seen[|seen| - 1])
      modifies this`script, this`seen
      ensures old(seen) <= seen && |script| <= |old(script)|
      ensures ok ==> ProvedComplete(seen, from, before, generation)
      ensures Serves(old(script), generation) && Spent(old(script), before) && |old(script)| >= 2 ==> ok && script == old(script)[2..]
    {
      hide ProvedComplete;
      ghost var s2 := seen;
      ok := SessionCurrent(generation);
      if !ok {
        return;
      }
      ghost var s3 := seen;
      ok := Sample(before);
      if ok {
        Proved(s1, s2, s3, seen, from, before, generation);
      }
    }

    /** usb_cdc_tx_wait_final_in: three complete samples, with the session current in between and,
        before the last one, after the grace period. */
    method WaitFinalIn(generation: nat, before: nat, timeout: nat) returns (ok: bool)
      modifies this`script, this`seen
      ensures old(seen) <= seen && |script| <= |old(script)|
      ensures ok ==> ProvedComplete(seen, |old(seen)|, before, generation)
      ensures Serves(old(script), generation) && Spent(old(script), before) && |old(script)| >= 7 && timeout > 0 ==> ok && script == old(script)[7..]
    {
      hide ProvedComplete;
      ok := false;
      if timeout == 0 {
        return;
      }
      var start := Now();
      var elapsed := 0;
      while elapsed < timeout
        invariant !ok && old(seen) <= seen && |script| <= |old(script)|
        invariant Serves(old(script), generation) && Spent(old(script), before) && |old(script)| >= 7 ==> elapsed == 0 && script == old(script)[1..]
        decreases |script|
      {
        var current := SessionCurrent(generation);
        if !current {
          return;
        }
        var ready := Sample(before);
        if ready {
          ghost var s1 := seen;
          current := SessionCurrent(generation);
          if !current {
            return;
          }
          ready := Sample(before);
          if ready {
            ok := LastSample(generation, before, s1, |old(seen)|);
            return;
          }
        }
        var now := Now();
        elapsed := (now - start) % TICKS;
      }
    }

    /** usb_cdc_tx_write_response: true only when exactly the response and a line feed were queued, in
        order, and the session was still current at the end. */
    method WriteResponse(response: seq<Byte>, generation: nat, release: bool, before: nat, timeout: nat) returns (ok: bool)
      modifies this
      ensures old(seen) <= seen
      ensures old(queued) <= queued <= old(queued) + response + [LF]
      ensures ok ==> queued == old(queued) + response + [LF] && seen != [] && seen[|seen| - 1].generation == generation
      ensures ok && release ==> exists from: nat :: |old(seen)| <= from && ProvedComplete(seen, from, before, generation)
      ensures Serves(old(script), generation) && Spent(old(script), before) && |old(script)| >= 3 * |response| + 14 && timeout > 0 ==> ok
    {
      ok := QueueAll(response, generation);
      if !ok {
        return;
      }
      ok := QueueLf(generation);
      if !ok {
        return;
      }
      ok := Finish(generation, release, before, timeout);
    }

    /** The loop over the response's bytes. */
    method QueueAll(response: seq<Byte>, generation: nat) returns (ok: bool)
      modifies this
      ensures old(seen) <= seen && |script| <= |old(script)|
      ensures old(queued) <= queued <= old(queued) + response
      ensures ok ==> queued == old(queued) + response
      ensures Serves(old(script), generation) && |old(script)| >= 3 * |response| ==> ok && script == old(script)[3 * |response|..]
    {
      var sent := 0;
      while sent < |response|
        invariant sent <= |response| && old(seen) <= seen && |script| <= |old(script)|
        invariant queued == old(queued) + response[..sent]
        invariant Serves(old(script), generation) && |old(script)| >= 3 * |response| ==> script == old(script)[3 * sent..]
        decreases |script|
      {
        var current := Current(generation);
        if !current {
          return false;
        }
        var n := Queue(response[sent..]);
        if n > |response| - sent {
          assert response[..sent] + response[sent..] == response;
          return false;
        }
        assert response[..sent] + response[sent..][..n] == response[..sent + n];
        if n == 0 {
          current := Current(generation);
          if !current {
            return false;
          }
          var _ := Flush();
        }
        sent := sent + n;
      }
      assert response[..|response|] == response;
      return true;
    }

    method QueueLf(generation: nat) returns (ok: bool)
      modifies this
      ensures old(seen) <= seen && |script| <= |old(script)|
      ensures queued == old(queued) + (if ok then [LF] else [])
      ensures Serves(old(script), generation) && |old(script)| >= 3 ==> ok && script == old(script)[3..]
    {
      while true
        invariant old(seen) <= seen && |script| <= |old(script)| && queued == old(queued)
        invariant Serves(old(script), generation) && |old(script)| >= 3 ==> script == old(script)
        decreases |script|
      {
        var current := Current(generation);
        if !current {
          return false;
        }
        var n := Queue([LF]);
        if n != 0 {
          return true;
        }
        var _ := Flush();
      }
    }

    /** The final flush, the transfer barrier for a release, and the last look at the session. */
    method Finish(generation: nat, release: bool, before: nat, timeout: nat) returns (ok: bool)
      modifies this`script, this`seen
      ensures old(seen) <= seen
      ensures ok ==> seen != [] && seen[|seen| - 1].generation == generation
      ensures ok && release ==> exists from: nat :: |old(seen)| <= from && ProvedComplete(seen, from, before, generation)
      ensures Serves(old(script), generation) && Spent(old(script), before) && |old(script)| >= 11 && timeout > 0 ==> ok
    {
      var current := Current(generation);
      if !current {
        return false;
      }
      ok := Flush();
      if !ok {
        return;
      }
      ghost var from := |seen|;
      if release {
        ok := WaitFinalIn(generation, before, timeout);
        if !ok {
          return;
        }
      }
      ghost var proof := seen;
      ok := SessionCurrent(generation);
      if ok && release {
        ProofLasts(proof, seen, from, before, generation);
      }
    }
  }

  /** Three complete samples since `from`, the session current before the second and the third. */
  ghost predicate Witness(seen: seq<Mood>, from: nat, before: nat, generation: nat, first: nat, second: nat, fence: nat) {
    && from <= first < second < fence < |seen| - 1
    && (forall k :: k in {first, second, |seen| - 1} ==> seen[k].sampled && seen[k].callbacks != before && seen[k].drained && !seen[k].busy)
    && seen[fence].generation == generation
  }

  ghost predicate ProvedComplete(seen: seq<Mood>, from: nat, before: nat, generation: nat) {
    exists s: seq<Mood>, first: nat, second: nat, fence: nat :: s <= seen && Witness(s, from, before, generation, first, second, fence)
  }

  lemma Proved(s1: seq<Mood>, s2: seq<Mood>, s3: seq<Mood>, s4: seq<Mood>, from: nat, before: nat, generation: nat)
    requires from < |s1| && s1 < s2 < s3 < s4
    requires FinalInComplete(before, s1[|s1| - 1]) && FinalInComplete(before, s2[|s2| - 1]) && FinalInComplete(before, s4[|s4| - 1])
    requires s3[|s3| - 1].generation == generation
    ensures ProvedComplete(s4, from, before, generation)
  {
    assert s4[|s1| - 1] == s1[|s1| - 1] && s4[|s2| - 1] == s2[|s2| - 1] && s4[|s3| - 1] == s3[|s3| - 1];
    assert s4[|s4| - 1].sampled;
    assert Witness(s4, from, before, generation, |s1| - 1, |s2| - 1, |s3| - 1);
  }

  lemma ProofLasts(a: seq<Mood>, b: seq<Mood>, from: nat, before: nat, generation: nat)
    requires ProvedComplete(a, from, before, generation) && a <= b
    ensures ProvedComplete(b, from, before, generation)
  {
    var s, first, second, fence :| s <= a && Witness(s, from, before, generation, first, second, fence);
    assert s <= b;
  }

  /** usb_cdc_tx_complete_accepted_release. */
  method CompleteAcceptedRelease(device: Ownership.Device, accepted: bool, complete: bool, id: Option<string>) returns (ok: bool)
    requires device.Valid()
    modifies device
    ensures device.Valid()
    ensures ok <==> accepted && complete && id.Some? && old(device.teardowns == 0 && device.accepts == [id.value] && device.usb.started && device.usb.waitingResponse) && Ownership.AttemptValid(id.value)
    ensures ok ==> accepted && complete && id.Some? && device.teardowns == 1 && old(device.teardowns) == 0 && device.accepts == [id.value]
    ensures !ok ==> device.teardowns == old(device.teardowns)
  {
    if !accepted || !complete || id.None? {
      return false;
    }
    ok := device.ResponseComplete(id.value);
  }

  /** One RELEASE_STORAGE command: teardown is signalled only for the attempt accepted here, after
      exactly its response was queued and its last transfer proved complete in the command's session. */
  method ReleaseCommand(device: Ownership.Device, transport: Transport, id: string, response: seq<Byte>, generation: nat, before: nat, timeout: nat)
      returns (torn: bool)
    requires device.Valid()
    modifies device, transport
    ensures device.Valid() && old(transport.seen) <= transport.seen
    ensures device.teardowns != old(device.teardowns) ==> torn
    ensures Ownership.AttemptValid(id) && old(device.usb.started && device.usb.hostOwned && device.accepts == []) ==>
      timeout > 0 && Serves(old(transport.script), generation) && Spent(old(transport.script), before) && |old(transport.script)| >= 3 * |response| + 14 ==> torn
    ensures torn ==> device.teardowns == 1 && device.accepts == [id] && old(device.accepts) == []
    ensures torn ==> transport.queued == old(transport.queued) + response + [LF]
    ensures torn ==> exists from: nat :: |old(transport.seen)| <= from && ProvedComplete(transport.seen, from, before, generation)
    ensures torn ==> transport.seen != [] && transport.seen[|transport.seen| - 1].generation == generation
  {
    var verdict := device.AcceptRelease(id);
    var accepted := verdict == Some(true);
    var complete := transport.WriteResponse(response, generation, accepted, before, timeout);
    torn := CompleteAcceptedRelease(device, accepted, complete, Some(id));
  }
}
