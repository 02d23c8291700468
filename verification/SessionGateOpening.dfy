/** When `open` answers true although stale receive data is still waiting to be drained.

    The gate's header says that open returns false while stale data still needs a drain to
    empty. The clear-dirty routine compares the epochs and swaps the word in separate steps, so
    a callback that comes and goes between them leaves a clean word with unequal epochs. */
module SessionGateOpening {
  import opened Wrappers
  import opened SessionGate
  import opened SessionGateSafety
  import opened SessionGateAlone

  // ----- Open running alone -----

  /** Open, undisturbed, answers true: its answer is the last event of the log. */
  predicate OpensAlone(g: Gate, ch: Choice) {
    Called(g, OpenGate, ch).0.log == g.log + [OpenTrue]
  }

  /** Undisturbed, open meets its promise to answer false while stale data is pending exactly
      when the gate is not in a clean-word state with unequal epochs. */
  lemma OpenKeepsPromiseExactly(g: Gate, ch: Choice)
    ensures (OpensAlone(g, ch) ==> g.discard == g.drained)
            <==> (g.phase == Resetting || g.word != CLEAN || g.discard == g.drained)
  {
    hide Called;
    OpenAlone(g, ch);
    assert |g.log + [OpenTrue]| != |g.log|;
  }

  // ----- Open among other threads -----

  /** Stale receive data is waiting to be drained. */
  predicate Pending(g: Gate) {
    g.discard != g.drained
  }

  /** The thread has reserved the admission word and not yet answered. */
  predicate Reserved(pc: Pc) {
    pc.AtOpen? && (pc.o.OpenPhase? || pc.o.OpenPhaseCas? || pc.o.OpenVerify? || pc.o.OpenPublish? || pc.o.OpenConfirm?)
  }

  /** Thread `t` takes step `i` of the run. */
  ghost predicate Takes(run: seq<Config>, i: nat, t: nat, ch: Choice) {
    i + 1 < |run| && Enabled(run[i], t, ch) && run[i + 1] == Apply(run[i], t, ch)
  }

  /** Step `i` is the successful reservation by thread `t`, which has not answered up to `j`. */
  ghost predicate ReservedSince(run: seq<Config>, i: nat, j: nat, t: nat) {
    && i < j < |run| && t in run[i].threads && run[i].threads[t] == AtOpen(OpenReserve) && run[i].gate.word == CLEAN
    && forall k :: i < k <= j ==> t in run[k].threads && Reserved(run[k].threads[t])
  }

  /** A stale notification was recorded at or after position `from`. */
  ghost predicate StaleAfter(log: seq<Event>, from: nat) {
    exists n :: from <= n < |log| && log[n].Stale?
  }

  lemma ReservingStep(g: Gate, pc: Pc, ch: Choice)
    requires !Reserved(pc) && Reserved(Step(g, pc, ch).1)
    ensures pc == AtOpen(OpenReserve) && g.word == CLEAN
  {
  }

  lemma {:induction false} ReserveBehind(run: seq<Config>, j: nat, t: nat) returns (i: nat)
    requires IsRun(run) && j < |run| && t in run[j].threads && Reserved(run[j].threads[t])
    ensures ReservedSince(run, i, j, t)
  {
    hide Step;
    assert j > 0;
    assert Next(run[j - 1], run[j]);
    var u, ch :| Enabled(run[j - 1], u, ch) && run[j] == Apply(run[j - 1], u, ch);
    assert t in run[j - 1].threads;
    if Reserved(run[j - 1].threads[t]) {
      i := ReserveBehind(run, j - 1, t);
    } else {
      ReservingStep(run[j - 1].gate, run[j - 1].threads[t], ch);
      i := j - 1;
    }
  }

  lemma StepDrains(c: Config, t: nat, ch: Choice)
    requires Inv(c) && Enabled(c, t, ch)
    ensures c.gate.drained <= Apply(c, t, ch).gate.drained
  {
    assert PcOk(c.gate, c.threads[t]);
  }

  lemma {:induction false} DrainedGrows(run: seq<Config>, i: nat, j: nat)
    requires IsRun(run) && i <= j < |run|
    ensures run[i].gate.drained <= run[j].gate.drained
    decreases j
  {
    hide Step, Inv, Init;
    if i < j {
      DrainedGrows(run, i, j - 1);
      RunKeepsInv(run, j - 1);
      assert Next(run[j - 1], run[j]);
      var t, ch :| Enabled(run[j - 1], t, ch) && run[j] == Apply(run[j - 1], t, ch);
      StepDrains(run[j - 1], t, ch);
    }
  }

  lemma {:induction false} NoneAfter(log: seq<Event>, from: nat)
    requires from <= |log|
    ensures StaleCount(log) == StaleCount(log[..from]) <==> !StaleAfter(log, from)
    ensures StaleCount(log[..from]) <= StaleCount(log)
  {
    assert log[..|log|] == log;
    StaleCountMonotone(log, from, |log|);
    if !StaleAfter(log, from) {
      CountUpTo(log, from, |log|);
    }
  }

  lemma {:induction false} CountUpTo(log: seq<Event>, from: nat, n: nat)
    requires from <= n <= |log| && !StaleAfter(log, from)
    ensures StaleCount(log[..n]) == StaleCount(log[..from])
    decreases n
  {
    if from < n {
      CountUpTo(log, from, n - 1);
      assert log[..n] == log[..n - 1] + [log[n - 1]];
      StaleCountAppend(log[..n - 1], log[n - 1]);
    }
  }

  /** In every run, an open that publishes answers true with stale data pending only if data was pending
      when it reserved the word or a notification was recorded after that; and exactly then if no drain
      moved the mark in between. */
  lemma OpenTrueWithPending(run: seq<Config>, j: nat, t: nat, ch: Choice) returns (i: nat)
    requires IsRun(run) && Takes(run, j, t, ch) && run[j].threads[t] == AtOpen(OpenConfirm)
    requires run[j + 1].gate.log == run[j].gate.log + [OpenTrue]
    ensures ReservedSince(run, i, j, t)
    ensures Pending(run[j].gate) ==> Pending(run[i].gate) || StaleAfter(run[j].gate.log, |run[i].gate.log|)
    ensures run[i].gate.drained == run[j].gate.drained ==>
      (Pending(run[j].gate) <==> Pending(run[i].gate) || StaleAfter(run[j].gate.log, |run[i].gate.log|))
  {
    hide Step;
    i := ReserveBehind(run, j, t);
    SameDebt(run, i, j);
  }

  lemma SameDebt(run: seq<Config>, i: nat, j: nat)
    requires IsRun(run) && i <= j < |run|
    ensures var g, h := run[i].gate, run[j].gate; var later := StaleAfter(h.log, |g.log|);
      && (Pending(h) ==> Pending(g) || later)
      && (g.drained == h.drained ==> (Pending(h) <==> Pending(g) || later))
  {
    hide Step, Init, StaleAfter;
    RunKeepsInv(run, i);
    RunKeepsInv(run, j);
    LogGrows(run, i, j);
    DrainedGrows(run, i, j);
    var g, h := run[i].gate, run[j].gate;
    assert GateOk(g) && GateOk(h);
    assert h.log[..|g.log|] == g.log;
    NoneAfter(h.log, |g.log|);
  }

  /** The epochs an open that finds the gate already open has loaded so far. */
  ghost predicate LoadsOk(g: Gate, pc: Pc) {
    pc.AtOpen? && pc.o.OpenAgainEpochs? ==>
      SampleOk(g, pc.o.d) && (pc.o.d.None? || pc.o.r.None?) && (pc.o.r.Some? ==> pc.o.r.value <= g.drained)
  }

  lemma LoadStep(g: Gate, pc: Pc, ch: Choice)
    requires LoadsOk(g, pc) && g.discard == StaleCount(g.log)
    ensures var (g', pc') := Step(g, pc, ch); g'.log == g.log && g'.drained == g.drained ==> LoadsOk(g', pc')
    ensures var (g', pc') := Step(g, pc, ch); pc'.AtOpen? && pc'.o.OpenAgainEpochs? ==> g'.log == g.log && g'.drained == g.drained
  {
    assert g.log[..|g.log|] == g.log;
  }

  lemma LoadsStay(g: Gate, g': Gate, pc: Pc)
    requires LoadsOk(g, pc) && g.log <= g'.log && g.drained <= g'.drained
    ensures LoadsOk(g', pc)
  {
    if pc.AtOpen? && pc.o.OpenAgainEpochs? && pc.o.d.Some? {
      var at := pc.o.d.value.at;
      assert g'.log[..at] == g.log[..at];
    }
  }

  lemma {:induction false} LoadsHold(run: seq<Config>, j: nat, t: nat)
    requires IsRun(run) && j < |run| && t in run[j].threads
    ensures LoadsOk(run[j].gate, run[j].threads[t])
  {
    hide Step, LoadsOk, Inv;
    if j == 0 {
      assert run[0].threads[t] == Idle;
      assert LoadsOk(run[0].gate, Idle) by { NothingLoaded(run[0].gate); }
    } else {
      assert Next(run[j - 1], run[j]);
      var u, ch :| Enabled(run[j - 1], u, ch) && run[j] == Apply(run[j - 1], u, ch);
      var c := run[j - 1];
      LoadsHold(run, j - 1, t);
      RunKeepsInv(run, j - 1);
      DiscardCounts(c);
      if u == t {
        LoadStep(c.gate, c.threads[t], ch);
        LoadedOr(run[j].gate, run[j].threads[t]);
      } else {
        StepKeepsInv(c, u, ch);
        StepDrains(c, u, ch);
        LoadsStay(c.gate, run[j].gate, c.threads[t]);
      }
    }
  }

  lemma NothingLoaded(g: Gate)
    ensures LoadsOk(g, Idle)
  {
  }

  lemma LoadedOr(g: Gate, pc: Pc)
    ensures LoadsOk(g, pc) || (pc.AtOpen? && pc.o.OpenAgainEpochs?)
  {
  }

  lemma DiscardCounts(c: Config)
    requires Inv(c)
    ensures c.gate.discard == StaleCount(c.gate.log) && c.gate.drained <= c.gate.discard
  {
  }

  /** In every run, an open that finds the gate open answers true with stale data pending only if a
      notification was recorded after it loaded the discard epoch. */
  lemma OpenAgainWithPending(run: seq<Config>, j: nat, t: nat, ch: Choice) returns (at: nat)
    requires IsRun(run) && Takes(run, j, t, ch) && run[j].threads[t].AtOpen? && run[j].threads[t].o.OpenAgainEpochs?
    requires run[j + 1].gate.log == run[j].gate.log + [OpenTrue]
    ensures var g := run[j].gate; at <= |g.log| && (Pending(g) ==> StaleAfter(g.log, at))
    ensures var o := run[j].threads[t].o; at == if o.d.Some? then o.d.value.at else |run[j].gate.log|
  {
    hide Inv, Init, StaleAfter;
    var g, o := run[j].gate, run[j].threads[t].o;
    at := if o.d.Some? then o.d.value.at else |g.log|;
    LoadsHold(run, j, t);
    RunKeepsInv(run, j);
    DiscardCounts(run[j]);
    AgainStep(g, o, ch);
    NoneAfter(g.log, at);
  }

  lemma AgainStep(g: Gate, o: OpenPc, ch: Choice)
    requires o.OpenAgainEpochs? && LoadsOk(g, AtOpen(o)) && g.discard == StaleCount(g.log)
    requires Step(g, AtOpen(o), ch).0.log == g.log + [OpenTrue]
    ensures var at := if o.d.Some? then o.d.value.at else |g.log|; at <= |g.log| && StaleCount(g.log[..at]) <= g.drained
  {
    assert g.log[..|g.log|] == g.log;
    assert |g.log + [OpenTrue]| != |g.log|;
  }

  // ----- A run that reaches such a state -----

  function Three(g: Gate, callback: Pc, worker: Pc, opener: Pc): Config {
    Config(g, map[0 := callback, 1 := worker, 2 := opener])
  }

  lemma Turn(run: seq<Config>, g: Gate, a: Pc, b: Pc, o: Pc, t: nat, ch: Choice) returns (run': seq<Config>)
    requires IsRun(run) && run[|run| - 1] == Three(g, a, b, o) && t < 3 && !ch.call.Reset?
    ensures IsRun(run')
    ensures var (g', pc') := Step(g, [a, b, o][t], ch);
            run'[|run'| - 1] == Three(g', if t == 0 then pc' else a, if t == 1 then pc' else b, if t == 2 then pc' else o)
  {
    hide Step, Init;
    var c := Three(g, a, b, o);
    assert Enabled(c, t, ch);
    run' := run + [Apply(c, t, ch)];
    assert Next(c, run'[|run|]);
    forall i | 0 <= i < |run'| - 1 ensures Next(run'[i], run'[i + 1]) {
      if i < |run| - 1 {
        assert Next(run[i], run[i + 1]);
      }
    }
  }

  const NOTE := Choice(NoteRx, false, false, true)
  const DRAIN := Choice(Drain, false, false, true)
  const OPEN := Choice(OpenGate, false, false, true)

  /** One whole note_rx by the callback on a closed word. */
  lemma NoteTurns(run: seq<Config>, g: Gate, b: Pc, o: Pc) returns (run': seq<Config>)
    requires IsRun(run) && run[|run| - 1] == Three(g, Idle, b, o)
    requires g.word.count == 0 && !g.word.open
    ensures IsRun(run') && run'[|run'| - 1] == Three(AddStale(g).(word := g.word.(dirty := true)), Idle, b, o)
  {
    var joined := g.(word := g.word.(count := 1));
    var noted := AddStale(joined);
    run' := Turn(run, g, Idle, b, o, 0, NOTE);
    run' := Turn(run', g, AtNote(NoteLoad), b, o, 0, NOTE);
    run' := Turn(run', g, AtNote(NoteCas(g.word)), b, o, 0, NOTE);
    run' := Turn(run', joined, AtNote(NoteEpoch), b, o, 0, NOTE);
    run' := Turn(run', noted, AtNote(NoteDirty), b, o, 0, NOTE);
    run' := Turn(run', noted.(word := noted.word.(dirty := true)), AtNote(NoteLeave), b, o, 0, NOTE);
  }

  lemma ReadTurns(run: seq<Config>, g: Gate) returns (run': seq<Config>)
    requires IsRun(run) && run[|run| - 1] == Three(g, Idle, Idle, Idle)
    ensures IsRun(run')
    ensures run'[|run'| - 1] == Three(g.(log := g.log + [EmptyRead(|g.log|)]), Idle, AtDrain(DrainMark(g.discard)), Idle)
  {
    run' := Turn(run, g, Idle, Idle, Idle, 1, DRAIN);
    run' := Turn(run', g, Idle, AtDrain(DrainLoad), Idle, 1, DRAIN);
    run' := Turn(run', g, Idle, AtDrain(DrainBegin(g.discard)), Idle, 1, DRAIN);
    run' := Turn(run', g, Idle, AtDrain(DrainRead(g.discard, |g.log|)), Idle, 1, DRAIN);
  }

  /** The rest of the drain pass, up to the swap that would clear the dirty mark. */
  lemma MarkTurns(run: seq<Config>, g: Gate) returns (run': seq<Config>)
    requires IsRun(run) && run[|run| - 1] == Three(g, Idle, AtDrain(DrainMark(g.discard)), Idle)
    requires g.word == Word(false, true, false, 0) && g.drained < g.discard
    ensures IsRun(run')
    ensures run'[|run'| - 1] == Three(g.(drained := g.discard), Idle, AtClear(ClearCas(g.word), ToCaller), Idle)
  {
    var marked := g.(drained := g.discard);
    run' := Turn(run, g, Idle, AtDrain(DrainMark(g.discard)), Idle, 1, DRAIN);
    run' := Turn(run', g, Idle, AtDrain(DrainCas(g.discard, g.drained)), Idle, 1, DRAIN);
    run' := Turn(run', marked, Idle, AtClear(ClearLoad, ToCaller), Idle, 1, DRAIN);
    run' := Turn(run', marked, Idle, AtClear(ClearEpochs(g.word, None, None), ToCaller), Idle, 1, DRAIN);
    run' := Turn(run', marked, Idle, AtClear(ClearEpochs(g.word, Some(Sample(g.discard, |g.log|)), None), ToCaller), Idle, 1, DRAIN);
  }

  lemma ReserveTurns(run: seq<Config>, g: Gate) returns (run': seq<Config>)
    requires IsRun(run) && run[|run| - 1] == Three(g, Idle, Idle, Idle)
    requires g.phase == Closed && g.word == CLEAN
    ensures IsRun(run')
    ensures run'[|run'| - 1] == Three(g.(word := RESERVED), Idle, Idle, AtOpen(OpenPhaseCas))
  {
    run' := Turn(run, g, Idle, Idle, Idle, 2, OPEN);
    run' := Turn(run', g, Idle, Idle, AtOpen(OpenLoad), 2, OPEN);
    run' := Turn(run', g, Idle, Idle, AtOpen(OpenReserve), 2, OPEN);
    run' := Turn(run', g.(word := RESERVED), Idle, Idle, AtOpen(OpenPhase), 2, OPEN);
  }

  lemma PublishTurns(run: seq<Config>, g: Gate) returns (run': seq<Config>)
    requires IsRun(run) && run[|run| - 1] == Three(g, Idle, Idle, AtOpen(OpenPhaseCas))
    requires g.phase == Closed && g.word == RESERVED
    ensures IsRun(run')
    ensures run'[|run'| - 1] == Three(g.(phase := Open, word := PUBLISHED, log := g.log + [OpenTrue]), Idle, Idle, Idle)
  {
    var ready := g.(phase := Open);
    run' := Turn(run, g, Idle, Idle, AtOpen(OpenPhaseCas), 2, OPEN);
    run' := Turn(run', ready, Idle, Idle, AtOpen(OpenVerify), 2, OPEN);
    run' := Turn(run', ready, Idle, Idle, AtOpen(OpenPublish), 2, OPEN);
    run' := Turn(run', ready.(word := PUBLISHED), Idle, Idle, AtOpen(OpenConfirm), 2, OPEN);
  }

  /** A run from the initial gate in which open answers true while one stale notification has
      not been followed by any drain: the promise in the header does not hold of the code. */
  lemma OpenAnswersTrueWithStaleData()
    ensures exists run: seq<Config> ::
              IsRun(run) &&
              var g := run[|run| - 1].gate;
              g.phase == Open && g.discard != g.drained && g.log != [] && g.log[|g.log| - 1] == OpenTrue
  {
    var start := Three(INITIAL, Idle, Idle, Idle);
    assert start.threads.Keys == {0, 1, 2};
    var run := [start];
    run := NoteTurns(run, INITIAL, Idle, Idle);
    var g := INITIAL.(discard := 1, log := [Stale], word := Word(false, true, false, 0));
    run := ReadTurns(run, g);
    g := g.(log := g.log + [EmptyRead(1)]);
    run := MarkTurns(run, g);
    g := g.(drained := 1);
    run := NoteTurns(run, g, AtClear(ClearCas(g.word), ToCaller), Idle);
    g := g.(discard := 2, log := g.log + [Stale]);
    run := Turn(run, g, Idle, AtClear(ClearCas(g.word), ToCaller), Idle, 1, DRAIN);
    g := g.(word := CLEAN);
    run := ReserveTurns(run, g);
    run := PublishTurns(run, g.(word := RESERVED));
  }
}
