/** What each call of the gate does when no other thread interferes. */
module SessionGateAlone {
  import opened Wrappers
  import opened SessionGate

  // ----- Calls running alone -----

  /** A thread has nothing more to do in its call: it is idle, or a command that has begun. */
  predicate Rests(pc: Pc) {
    pc.Idle? || (pc.AtCheck? && pc.a.Running?)
  }

  /** The gate and the thread after at most `n` steps of the thread alone. */
  function Alone(g: Gate, pc: Pc, ch: Choice, n: nat): (Gate, Pc)
    decreases n
  {
    if n == 0 || Rests(pc) then (g, pc)
    else var (g', pc') := Step(g, pc, ch); Alone(g', pc', ch, n - 1)
  }

  const ENOUGH: nat := 20

  /** A call that no other thread interferes with. */
  function Called(g: Gate, call: Call, ch: Choice): (Gate, Pc) {
    Alone(g, Started(call), ch, ENOUGH)
  }

  lemma Go(g: Gate, pc: Pc, ch: Choice, n: nat)
    requires n > 0 && !Rests(pc)
    ensures Alone(g, pc, ch, n) == Alone(Step(g, pc, ch).0, Step(g, pc, ch).1, ch, n - 1)
  {
  }

  /** The session is open, its admission word is published and no stale data is waiting. */
  predicate Admits(g: Gate) {
    g.phase == Open && g.word == PUBLISHED && g.discard == g.drained
  }

  function Logged(g: Gate, e: Event): Gate {
    g.(log := g.log + [e])
  }

  /** The last comparison of a check, however its two loads are ordered. */
  lemma EpochsAlone(g: Gate, u: Use, gen: int, ch: Choice, n: nat)
    requires n >= 2
    ensures Alone(g, AtCheck(CheckEpochs(u, gen, None, None)), ch, n)
            == if g.discard == g.drained then Alone(Logged(g, Admitted(u, gen, |g.log|)), Passed(u, gen), ch, n - 2)
               else Alone(g, Refused(u), ch, n - 2)
  {
    hide Alone;
    Go(g, AtCheck(CheckEpochs(u, gen, None, None)), ch, n);
    if ch.drainedFirst {
      Go(g, AtCheck(CheckEpochs(u, gen, None, Some(g.drained))), ch, n - 1);
    } else {
      Go(g, AtCheck(CheckEpochs(u, gen, Some(Sample(g.discard, |g.log|)), None)), ch, n - 1);
    }
  }

  /** One check: all its loads, or the first that fails. */
  lemma CheckAlone(g: Gate, u: Use, gen: int, ch: Choice, n: nat) returns (left: nat)
    requires n >= 5
    ensures n - 5 <= left < n
    ensures Alone(g, AtCheck(CheckPhase(u, gen)), ch, n)
            == if Admits(g) && (u == First || g.generation == gen) then Alone(Logged(g, Admitted(u, gen, |g.log|)), Passed(u, gen), ch, left)
               else Alone(g, Refused(u), ch, left)
  {
    hide Alone;
    left := n - 1;
    Go(g, AtCheck(CheckPhase(u, gen)), ch, n);
    if g.phase == Open {
      if u != First {
        left := left - 1;
        Go(g, AtCheck(CheckGeneration(u, gen)), ch, n - 1);
      }
      if u == First || g.generation == gen {
        Go(g, AtCheck(CheckWord(u, gen)), ch, left);
        left := left - 1;
        if g.word == PUBLISHED {
          EpochsAlone(g, u, gen, ch, left);
          left := left - 2;
        }
      }
    }
  }

  lemma Rested(g: Gate, pc: Pc, ch: Choice, n: nat)
    requires Rests(pc)
    ensures Alone(g, pc, ch, n) == (g, pc)
  {
  }

  /** A snapshot is admitted exactly if the session is open, published and drained, and takes its generation. */
  lemma SnapshotAlone(g: Gate, ch: Choice)
    ensures var at := |g.log|;
            Called(g, Snapshot, ch)
            == (if Admits(g) then Logged(Logged(g, Admitted(First, g.generation, at)), Admitted(Second, g.generation, at + 1)) else g, Idle)
  {
    hide Alone;
    Go(g, AtCheck(SnapshotLoad), ch, ENOUGH);
    var left := CheckAlone(g, First, g.generation, ch, ENOUGH - 1);
    var noted := Logged(g, Admitted(First, g.generation, |g.log|));
    if Admits(g) {
      left := CheckAlone(noted, Second, g.generation, ch, left);
      Rested(Logged(noted, Admitted(Second, g.generation, |noted.log|)), Idle, ch, left);
    } else {
      Rested(g, Idle, ch, left);
    }
  }

  /** A snapshot is still current exactly if that holds and the generation is still its own. */
  lemma CurrentAlone(g: Gate, gen: int, ch: Choice)
    ensures Called(g, IsCurrent(gen), ch)
            == (if Admits(g) && g.generation == gen then Logged(g, Admitted(Current, gen, |g.log|)) else g, Idle)
  {
    hide Alone;
    var left := CheckAlone(g, Current, gen, ch, ENOUGH);
    Rested(g, Idle, ch, left);
    Rested(Logged(g, Admitted(Current, gen, |g.log|)), Idle, ch, left);
  }

  /** So a command begins exactly then, and is counted as active; one that is refused leaves no trace. */
  lemma CommandAlone(g: Gate, gen: int, ch: Choice)
    ensures var at := |g.log|;
            Called(g, Command(gen), ch)
            == if Admits(g) && g.generation == gen
               then (Logged(Logged(g, Admitted(Before, gen, at)), Admitted(After, gen, at + 1)).(active := g.active + 1), AtCheck(Running(gen)))
               else (g, Idle)
  {
    hide Alone;
    var left := CheckAlone(g, Before, gen, ch, ENOUGH);
    if Admits(g) && g.generation == gen {
      var noted := Logged(g, Admitted(Before, gen, |g.log|));
      Go(noted, AtCheck(Join(gen)), ch, left);
      var joined := noted.(active := g.active + 1);
      left := CheckAlone(joined, After, gen, ch, left - 1);
      Rested(Logged(joined, Admitted(After, gen, |joined.log|)), AtCheck(Running(gen)), ch, left);
    } else {
      Rested(g, Idle, ch, left);
    }
  }

  // ----- Callbacks -----

  /** A notification counts as stale unless the session is published. */
  lemma NoteAlone(g: Gate, ch: Choice)
    requires !ch.spurious
    ensures Called(g, NoteRx, ch) == (if g.word == PUBLISHED then g else AddStale(g).(word := g.word.(dirty := true)), Idle)
  {
    hide Alone;
    Go(g, AtNote(NoteLoad), ch, ENOUGH);
    if g.word == PUBLISHED {
      Rested(g, Idle, ch, ENOUGH - 1);
    } else {
      var noted := AddStale(g).(word := g.word.(dirty := true));
      if g.word.count == COUNT_MASK {
        Go(g, AtNote(NoteFullEpoch), ch, ENOUGH - 1);
        Go(AddStale(g), AtNote(NoteFullDirty), ch, ENOUGH - 2);
        Rested(noted, Idle, ch, ENOUGH - 3);
      } else {
        var joined := g.(word := g.word.(count := g.word.count + 1));
        Go(g, AtNote(NoteCas(g.word)), ch, ENOUGH - 1);
        Go(joined, AtNote(NoteEpoch), ch, ENOUGH - 2);
        Go(AddStale(joined), AtNote(NoteDirty), ch, ENOUGH - 3);
        Go(AddStale(joined).(word := joined.word.(dirty := true)), AtNote(NoteLeave), ch, ENOUGH - 4);
        Rested(noted, Idle, ch, ENOUGH - 5);
      }
    }
  }

  // ----- Clearing the dirty mark -----

  /** The gate after its dirty mark was cleared, if nothing is pending, opening or being classified. */
  function Cleared(g: Gate): Gate {
    if !g.word.open && !g.word.opening && g.word.count == 0 && g.discard == g.drained then g.(word := g.word.(dirty := false)) else g
  }

  lemma ClearAlone(g: Gate, k: Return, ch: Choice, n: nat) returns (left: nat)
    requires !ch.spurious && n >= 4
    ensures n - 4 <= left < n && Alone(g, AtClear(ClearLoad, k), ch, n) == Alone(Cleared(g), AfterClear(k), ch, left)
  {
    hide Alone;
    left := n - 1;
    Go(g, AtClear(ClearLoad, k), ch, n);
    if !g.word.open && !g.word.opening && g.word.dirty && g.word.count == 0 {
      var w := g.word;
      left := left - 2;
      Go(g, AtClear(ClearEpochs(w, None, None), k), ch, n - 1);
      if ch.drainedFirst {
        Go(g, AtClear(ClearEpochs(w, None, Some(g.drained)), k), ch, n - 2);
      } else {
        Go(g, AtClear(ClearEpochs(w, Some(Sample(g.discard, |g.log|)), None), k), ch, n - 2);
      }
      if g.discard == g.drained {
        Go(g, AtClear(ClearCas(w), k), ch, n - 3);
        left := left - 1;
      }
    } else {
      assert Cleared(g) == g;
    }
  }

  // ----- Close, reset and drain -----

  /** Invalidating a boundary counts as a stale notification and takes the word out of every open state. */
  lemma BoundaryAlone(g: Gate, ch: Choice, n: nat) returns (left: nat)
    requires !ch.spurious && n >= 8
    ensures n - 8 <= left && Alone(g, AtClose(BoundaryLoad), ch, n) == Alone(Cleared(AddStale(g).(word := Word(false, true, false, g.word.count))), Idle, ch, left)
  {
    hide Alone;
    var marked := g.(word := BoundaryWord(g.word));
    var noted := AddStale(g).(word := Word(false, true, false, g.word.count));
    Go(g, AtClose(BoundaryLoad), ch, n);
    Go(g, AtClose(BoundaryCas(g.word)), ch, n - 1);
    Go(marked, AtClose(BoundaryEpoch(g.word.count != COUNT_MASK)), ch, n - 2);
    if g.word.count != COUNT_MASK {
      Go(AddStale(marked), AtClose(BoundaryLeave), ch, n - 3);
      left := ClearAlone(noted, ToCaller, ch, n - 4);
    } else {
      left := ClearAlone(noted, ToCaller, ch, n - 3);
    }
  }

  /** Closing an open session starts the next generation and leaves the gate dirty; otherwise it does nothing. */
  lemma CloseAlone(g: Gate, ch: Choice)
    requires !ch.spurious && g.drained <= g.discard
    ensures Called(g, CloseGate, ch)
            == (if g.phase == Open
                then AddStale(g).(phase := Closed, generation := g.generation + 1, word := Word(false, true, false, g.word.count)) else g, Idle)
  {
    hide Alone;
    Go(g, AtClose(CloseCas), ch, ENOUGH);
    if g.phase == Open {
      var closed := g.(phase := Closed);
      var next := closed.(generation := g.generation + 1);
      Go(closed, AtClose(CloseGeneration), ch, ENOUGH - 1);
      var left := BoundaryAlone(next, ch, ENOUGH - 2);
      var noted := AddStale(next).(word := Word(false, true, false, g.word.count));
      assert Cleared(noted) == noted;
      Rested(noted, Idle, ch, left);
    } else {
      Rested(g, Idle, ch, ENOUGH - 1);
    }
  }

  /** A drain pass that reads to empty makes the drained epoch the discard epoch and clears the mark. */
  lemma DrainAlone(g: Gate, ch: Choice)
    requires !ch.spurious && g.drained <= g.discard
    ensures Called(g, Drain, ch)
            == (if ch.empty then Cleared(Logged(g, EmptyRead(|g.log|)).(drained := g.discard)) else g, Idle)
  {
    hide Alone;
    Go(g, AtDrain(DrainLoad), ch, ENOUGH);
    Go(g, AtDrain(DrainBegin(g.discard)), ch, ENOUGH - 1);
    Go(g, AtDrain(DrainRead(g.discard, |g.log|)), ch, ENOUGH - 2);
    if ch.empty {
      var read := Logged(g, EmptyRead(|g.log|));
      var marked := read.(drained := g.discard);
      var left := ENOUGH - 4;
      Go(read, AtDrain(DrainMark(g.discard)), ch, ENOUGH - 3);
      if g.drained < g.discard {
        Go(read, AtDrain(DrainCas(g.discard, g.drained)), ch, left);
        left := left - 1;
      } else {
        assert marked == read;
      }
      left := ClearAlone(marked, ToCaller, ch, left);
      Rested(Cleared(marked), Idle, ch, left);
    } else {
      Rested(g, Idle, ch, ENOUGH - 3);
    }
  }

  /** The gate after a reset with no command running. */
  function AfterReset(g: Gate): Gate {
    var shut := g.(phase := Resetting, word := g.word.(open := false, opening := false));
    var clear := if g.word.open || g.word.opening then Cleared(shut) else shut;
    clear.(phase := Closed, generation := g.generation + 1, log := g.log + [ResetDone(g.generation + 1)])
  }

  /** Reset closes the gate in the next generation, and returns at once if no command is running. */
  lemma ResetAlone(g: Gate, ch: Choice)
    requires !ch.spurious && g.active == 0
    ensures Called(g, Reset, ch) == (AfterReset(g), Idle)
  {
    hide Alone;
    var resetting := g.(phase := Resetting);
    var shut := resetting.(word := g.word.(open := false, opening := false));
    Go(g, AtReset(ResetStore), ch, ENOUGH);
    Go(resetting, AtReset(ResetWord), ch, ENOUGH - 1);
    if g.word.open || g.word.opening {
      Go(resetting, AtReset(ResetWordCas(g.word)), ch, ENOUGH - 2);
      var left := ClearAlone(shut, ToReset, ch, ENOUGH - 3);
      FinishReset(Cleared(shut), ch, left);
    } else {
      assert shut == resetting;
      FinishReset(shut, ch, ENOUGH - 2);
    }
  }

  lemma FinishReset(g: Gate, ch: Choice, n: nat)
    requires n >= 3 && g.active == 0
    ensures Alone(g, AtReset(ResetGeneration), ch, n)
            == (g.(phase := Closed, generation := g.generation + 1, log := g.log + [ResetDone(g.generation + 1)]), Idle)
  {
    hide Alone;
    var next := g.(generation := g.generation + 1);
    Go(g, AtReset(ResetGeneration), ch, n);
    Go(next, AtReset(ResetWait), ch, n - 1);
    Go(next, AtReset(ResetPublish), ch, n - 2);
    Rested(next.(phase := Closed, log := g.log + [ResetDone(g.generation + 1)]), Idle, ch, n - 3);
  }

  /** While a command is running, a reset waits, however long it is given. */
  lemma {:induction false} ResetWaits(g: Gate, ch: Choice, n: nat)
    requires g.active != 0
    ensures Alone(g, AtReset(ResetWait), ch, n) == (g, AtReset(ResetWait))
  {
    if n > 0 {
      ResetWaits(g, ch, n - 1);
    }
  }

  // ----- Open -----

  lemma VerifyAlone(g: Gate, ch: Choice, n: nat)
    requires g.phase == Open && g.word == RESERVED && n >= 3
    ensures Alone(g, AtOpen(OpenVerify), ch, n) == (Logged(g.(word := PUBLISHED), OpenTrue), Idle)
  {
    hide Alone;
    Go(g, AtOpen(OpenVerify), ch, n);
    Go(g, AtOpen(OpenPublish), ch, n - 1);
    Go(g.(word := PUBLISHED), AtOpen(OpenConfirm), ch, n - 2);
    Rested(Logged(g.(word := PUBLISHED), OpenTrue), Idle, ch, n - 3);
  }

  lemma ReserveAlone(g: Gate, ch: Choice, n: nat)
    requires g.phase != Resetting && n >= 6
    ensures Alone(g, AtOpen(OpenReserve), ch, n) == (if g.word == CLEAN then Logged(g.(phase := Open, word := PUBLISHED), OpenTrue) else g, Idle)
  {
    hide Alone;
    Go(g, AtOpen(OpenReserve), ch, n);
    if g.word == CLEAN {
      var reserved := g.(word := RESERVED);
      Go(reserved, AtOpen(OpenPhase), ch, n - 1);
      if g.phase == Open {
        VerifyAlone(reserved, ch, n - 2);
      } else {
        Go(reserved, AtOpen(OpenPhaseCas), ch, n - 2);
        VerifyAlone(reserved.(phase := Open), ch, n - 3);
      }
    } else {
      Rested(g, Idle, ch, n - 1);
    }
  }

  /** Open publishes a clean word unless a reset is under way, and confirms a published session that is
      drained; otherwise it changes nothing. The answer is the log's last event. */
  lemma OpenAlone(g: Gate, ch: Choice)
    ensures Called(g, OpenGate, ch)
            == (if g.phase != Resetting && g.word == CLEAN then Logged(g.(phase := Open, word := PUBLISHED), OpenTrue)
                else if Admits(g) then Logged(g, OpenTrue) else g, Idle)
  {
    hide Alone;
    var n := ENOUGH;
    Go(g, AtOpen(OpenLoad), ch, n);
    if g.phase == Resetting {
      Rested(g, Idle, ch, n - 1);
    } else if g.phase == Closed {
      ReserveAlone(g, ch, n - 1);
    } else {
      Go(g, AtOpen(OpenAgain), ch, n - 1);
      if g.word == PUBLISHED {
        Go(g, AtOpen(OpenAgainEpochs(None, None)), ch, n - 2);
        if ch.drainedFirst {
          Go(g, AtOpen(OpenAgainEpochs(None, Some(g.drained))), ch, n - 3);
        } else {
          Go(g, AtOpen(OpenAgainEpochs(Some(Sample(g.discard, |g.log|)), None)), ch, n - 3);
        }
        Rested(g, Idle, ch, n - 4);
        Rested(Logged(g, OpenTrue), Idle, ch, n - 4);
      } else {
        ReserveAlone(g, ch, n - 2);
      }
    }
  }

  /** So after a close and a drain to empty, an open and a command of the new generation succeed. */
  lemma SessionAlone(g: Gate, ch: Choice)
    requires !ch.spurious && ch.empty && g.drained <= g.discard && g.phase == Open && g.word.count == 0
    ensures var closed := Called(g, CloseGate, ch).0;
            var drained := Called(closed, Drain, ch).0;
            var reopened := Called(drained, OpenGate, ch).0;
            && !Admits(closed) && !Admits(drained) && Admits(reopened) && reopened.generation == g.generation + 1
            && Called(reopened, Command(g.generation + 1), ch).1 == AtCheck(Running(g.generation + 1))
            && Called(reopened, Command(g.generation), ch) == (reopened, Idle)
  {
    hide Called;
    CloseAlone(g, ch);
    var closed := Called(g, CloseGate, ch).0;
    DrainAlone(closed, ch);
    var drained := Called(closed, Drain, ch).0;
    OpenAlone(drained, ch);
    var reopened := Called(drained, OpenGate, ch).0;
    CommandAlone(reopened, g.generation + 1, ch);
    CommandAlone(reopened, g.generation, ch);
  }
}
