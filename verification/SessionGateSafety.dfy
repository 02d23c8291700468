/** What every run of the session gate keeps, and the two guarantees that follow: the reset
    barrier and the stale-receive fence. */
module SessionGateSafety {
  import opened Wrappers
  import opened SessionGate

  // ----- Facts about the event log -----

  ghost function StaleCount(log: seq<Event>): nat {
    if log == [] then 0
    else StaleCount(log[..|log| - 1]) + if log[|log| - 1].Stale? then 1 else 0
  }

  lemma StaleCountAppend(log: seq<Event>, e: Event)
    ensures StaleCount(log + [e]) == StaleCount(log) + if e.Stale? then 1 else 0
  {
    assert (log + [e])[..|log|] == log;
  }

  lemma {:induction false} StaleCountMonotone(log: seq<Event>, i: nat, j: nat)
    requires i <= j <= |log|
    ensures StaleCount(log[..i]) <= StaleCount(log[..j])
    ensures forall n :: i <= n < j && log[n].Stale? ==> StaleCount(log[..i]) < StaleCount(log[..j])
    decreases j
  {
    if i < j {
      StaleCountMonotone(log, i, j - 1);
      assert log[..j] == log[..j - 1] + [log[j - 1]];
      StaleCountAppend(log[..j - 1], log[j - 1]);
    }
  }

  /** Event `e` is an empty read that began after at least `n` stale notifications were added. */
  ghost predicate ReadsPast(log: seq<Event>, e: nat, n: int)
    requires e < |log|
  {
    log[e].EmptyRead? && log[e].begun <= |log| && n <= StaleCount(log[..log[e].begun])
  }

  /** Every one of the first `n` stale notifications was followed by an empty read. */
  ghost predicate Covered(log: seq<Event>, n: int) {
    n <= 0 || exists e: nat :: e < |log| && ReadsPast(log, e, n)
  }

  lemma CoveredAppend(log: seq<Event>, e: Event, n: int)
    requires Covered(log, n)
    ensures Covered(log + [e], n)
  {
    if n > 0 {
      var i: nat :| i < |log| && ReadsPast(log, i, n);
      assert (log + [e])[..log[i].begun] == log[..log[i].begun];
      assert ReadsPast(log + [e], i, n);
    }
  }

  /** Before position `k`, each stale notification recorded before `at` was followed by an
      empty read that began after it. */
  ghost predicate Fenced(log: seq<Event>, k: nat, at: nat)
    requires at <= k <= |log|
  {
    forall n: nat :: n < at && log[n].Stale? ==> exists e: nat :: e < k && log[e].EmptyRead? && n < log[e].begun
  }

  lemma CoverFences(log: seq<Event>, at: nat)
    requires at <= |log| && Covered(log, StaleCount(log[..at]))
    ensures Fenced(log, |log|, at)
  {
    forall n: nat | n < at && log[n].Stale?
      ensures exists e: nat :: e < |log| && log[e].EmptyRead? && n < log[e].begun
    {
      StaleCountMonotone(log, n, at);
      var e: nat :| e < |log| && ReadsPast(log, e, StaleCount(log[..at]));
      if log[e].begun <= n {
        StaleCountMonotone(log, log[e].begun, n);
      }
    }
  }

  /** No completed reset returned at a generation above `gen`. */
  ghost predicate NotBefore(log: seq<Event>, gen: int) {
    forall i :: 0 <= i < |log| && log[i].ResetDone? ==> log[i].generation <= gen
  }

  /** What an admission at position `k` of the log guarantees. */
  ghost predicate AdmissionOk(log: seq<Event>, k: nat)
    requires k < |log|
  {
    log[k].Admitted? ==>
      log[k].checked <= k && Fenced(log, k, log[k].checked)
      && (log[k].use == After ==> NotBefore(log[..k], log[k].generation))
  }

  ghost predicate LogOk(log: seq<Event>) {
    forall k: nat :: k < |log| ==> AdmissionOk(log, k)
  }

  lemma LogAppend(log: seq<Event>, e: Event)
    requires LogOk(log)
    requires e.Admitted? ==> e.checked <= |log| && Fenced(log, |log|, e.checked) && (e.use == After ==> NotBefore(log, e.generation))
    ensures LogOk(log + [e])
  {
    var log' := log + [e];
    forall k: nat | k < |log'| ensures AdmissionOk(log', k) {
      assert log'[..k] == log[..k];
      if k < |log| {
        assert AdmissionOk(log, k);
      } else {
        assert log[..k] == log;
      }
    }
  }

  // ----- The invariant -----

  /** The thread has joined the active commands and not left them. */
  predicate InActive(pc: Pc) {
    pc.AtCheck? && match pc.a
      case CheckPhase(u, _) => u == After
      case CheckGeneration(u, _) => u == After
      case CheckWord(u, _) => u == After
      case CheckEpochs(u, _, _, _) => u == After
      case BackOut => true
      case Running(_) => true
      case _ => false
  }

  /** The thread has counted itself into the admission word and not out again. */
  predicate Registered(pc: Pc) {
    (pc.AtNote? && (pc.n.NoteEpoch? || pc.n.NoteDirty? || pc.n.NoteLeave?))
    || (pc.AtClose? && (pc.x.BoundaryEpoch? || pc.x.BoundaryLeave?))
  }

  /** A command past the phase check that follows its join. */
  predicate PastPhase(pc: Pc) {
    InActive(pc) && !pc.a.CheckPhase? && !pc.a.BackOut?
  }

  /** A command past the generation check that follows its join, and its frame generation. */
  predicate PastGeneration(pc: Pc) {
    PastPhase(pc) && !pc.a.CheckGeneration?
  }

  ghost predicate SampleOk(g: Gate, d: Option<Sample>) {
    d.Some? ==> d.value.at <= |g.log| && d.value.value == StaleCount(g.log[..d.value.at])
  }

  ghost predicate NoteOk(n: NotePc) {
    !n.NoteFullEpoch? && !n.NoteFullDirty? && (n.NoteCas? ==> n.w.count < COUNT_MASK && n.w != PUBLISHED)
  }

  ghost predicate ClearOk(c: ClearPc) {
    c.ClearLoad? || (c.w.dirty && !c.w.open && !c.w.opening && c.w.count == 0)
  }

  ghost predicate CloseOk(x: ClosePc) {
    match x
    case BoundaryCas(w) => w.count < COUNT_MASK
    case BoundaryEpoch(joined) => joined
    case CancelCas(w) => w.opening
    case _ => true
  }

  ghost predicate DrainOk(g: Gate, d: DrainPc) {
    match d
    case DrainLoad => true
    case DrainBegin(observed) => observed <= g.discard && observed <= StaleCount(g.log)
    case DrainRead(observed, begun) => observed <= g.discard && begun <= |g.log| && observed <= StaleCount(g.log[..begun])
    case DrainMark(observed) => observed <= g.discard && Covered(g.log, observed)
    case DrainCas(observed, current) => current < observed <= g.discard && Covered(g.log, observed)
  }

  ghost predicate CheckOk(g: Gate, a: CheckPc) {
    match a
    case CheckEpochs(u, gen, d, r) =>
      SampleOk(g, d) && (r.Some? ==> Covered(g.log, r.value)) && (u == After ==> NotBefore(g.log, gen))
    case CheckWord(u, gen) => u == After ==> NotBefore(g.log, gen)
    case Running(gen) => NotBefore(g.log, gen)
    case _ => true
  }

  /** What a thread may rely on at each point of its program. */
  ghost predicate PcOk(g: Gate, pc: Pc) {
    match pc
    case AtNote(n) => NoteOk(n)
    case AtClear(c, _) => ClearOk(c)
    case AtClose(x) => CloseOk(x)
    case AtDrain(d) => DrainOk(g, d)
    case AtCheck(a) => CheckOk(g, a)
    case _ => true
  }

  ghost predicate GateOk(g: Gate) {
    && (g.word.open ==> g.word == PUBLISHED)
    && g.drained <= g.discard == StaleCount(g.log)
    && Covered(g.log, g.drained)
    && NotBefore(g.log, g.generation)
    && LogOk(g.log)
  }

  /** The thread holds the reset: it has published Resetting and not yet Closed. */
  predicate Holds(pc: Pc) {
    InReset(pc) && pc != AtReset(ResetStore)
  }

  ghost predicate OneResetter(threads: map<nat, Pc>) {
    forall t, u :: t in threads && u in threads && InReset(threads[t]) && InReset(threads[u]) ==> t == u
  }

  ghost predicate Barred(c: Config) {
    (exists t :: t in c.threads && c.threads[t] == AtReset(ResetPublish)) ==>
      forall u :: u in c.threads ==> !PastPhase(c.threads[u])
  }

  ghost predicate Inv(c: Config) {
    && GateOk(c.gate)
    && |c.threads| < COUNT_MASK
    && c.gate.active == Count(c.threads, InActive)
    && c.gate.word.count == Count(c.threads, Registered)
    && (forall t :: t in c.threads ==> PcOk(c.gate, c.threads[t]))
    && OneResetter(c.threads)
    && (forall t :: t in c.threads && Holds(c.threads[t]) ==> c.gate.phase == Resetting)
    && Barred(c)
  }

  // ----- Every step keeps the invariant -----

  /** The log grows by at most one event. */
  ghost predicate Grown(log: seq<Event>, log': seq<Event>) {
    log' == log || (|log'| == |log| + 1 && log' == log + [log'[|log|]])
  }

  /** The part of the invariant a thread needs to take its step. */
  ghost predicate Ready(g: Gate, pc: Pc) {
    GateOk(g) && PcOk(g, pc) && g.word.count < COUNT_MASK && (Registered(pc) ==> g.word.count > 0)
  }

  /** The event a step may record. */
  ghost predicate EventOk(g: Gate, pc: Pc, e: Event) {
    && (e.Admitted? ==> e.checked <= |g.log| && Fenced(g.log, |g.log|, e.checked)
                        && (e.use == After ==> NotBefore(g.log, e.generation)))
    && (e.ResetDone? ==> pc == AtReset(ResetPublish) && e.generation == g.generation)
  }

  /** What one step does to the counts, the word, the epochs, the log and the phase. */
  ghost predicate Moves(g: Gate, pc: Pc, ch: Choice, g': Gate, pc': Pc) {
    && g'.active == g.active + (if InActive(pc') then 1 else 0) - (if InActive(pc) then 1 else 0)
    && g'.word.count == g.word.count + (if Registered(pc') then 1 else 0) - (if Registered(pc) then 1 else 0)
    && (g'.word.open ==> g'.word == PUBLISHED)
    && g'.drained <= g.discard && Covered(g.log, g'.drained)
    && g'.generation >= g.generation
    && Grown(g.log, g'.log)
    && g'.discard == g.discard + (if g'.log != g.log && g'.log[|g.log|].Stale? then 1 else 0)
    && (g'.log != g.log ==> EventOk(g, pc, g'.log[|g.log|]))
    && PcOk(g', pc')
  }

  /** What one step does to the reset and to the phase. */
  ghost predicate PhaseMoves(g: Gate, pc: Pc, ch: Choice, g': Gate, pc': Pc) {
    && (pc != AtReset(ResetPublish) && g.phase == Resetting ==> g'.phase == Resetting)
    && (!Holds(pc) && Holds(pc') ==> g'.phase == Resetting)
    && (!PastPhase(pc) && PastPhase(pc') ==> g.phase == Open)
    && (pc' == AtReset(ResetPublish) ==> pc == AtReset(ResetWait) && g.active == 0)
    && (InReset(pc') && !InReset(pc) ==> pc.Idle? && ch.call.Reset?)
    && (pc == AtReset(ResetPublish) ==> pc' == Idle)
  }

  lemma NoteMoves(g: Gate, n: NotePc, ch: Choice)
    requires Ready(g, AtNote(n))
    ensures var (g', pc') := NoteStep(g, n, ch); Moves(g, AtNote(n), ch, g', pc')
  {
  }

  lemma ClearMoves(g: Gate, c: ClearPc, k: Return, ch: Choice)
    requires Ready(g, AtClear(c, k))
    ensures var (g', pc') := ClearStep(g, c, k, ch); Moves(g, AtClear(c, k), ch, g', pc')
  {
  }

  lemma CloseMoves(g: Gate, x: ClosePc, ch: Choice)
    requires Ready(g, AtClose(x))
    ensures var (g', pc') := CloseStep(g, x, ch); Moves(g, AtClose(x), ch, g', pc')
  {
  }

  lemma OpenMoves(g: Gate, o: OpenPc, ch: Choice)
    requires Ready(g, AtOpen(o))
    ensures var (g', pc') := OpenStep(g, o, ch); Moves(g, AtOpen(o), ch, g', pc')
  {
  }

  lemma ResetMoves(g: Gate, r: ResetPc, ch: Choice)
    requires Ready(g, AtReset(r))
    ensures var (g', pc') := ResetStep(g, r, ch); Moves(g, AtReset(r), ch, g', pc')
  {
  }

  lemma DrainMoves(g: Gate, d: DrainPc, ch: Choice)
    requires Ready(g, AtDrain(d))
    ensures var (g', pc') := DrainStep(g, d, ch); Moves(g, AtDrain(d), ch, g', pc')
  {
    assert g.log[..|g.log|] == g.log;
    if d.DrainRead? && ch.empty {
      var log' := g.log + [EmptyRead(d.begun)];
      assert log'[..d.begun] == g.log[..d.begun];
      assert ReadsPast(log', |g.log|, d.observed);
    }
  }

  lemma EpochsMoves(g: Gate, a: CheckPc, ch: Choice)
    requires Ready(g, AtCheck(a)) && a.CheckEpochs?
    ensures var (g', pc') := CheckStep(g, a, ch); Moves(g, AtCheck(a), ch, g', pc')
  {
    assert g.log[..|g.log|] == g.log;
    var (d, r) := LoadEpoch(g, a.d, a.r, ch);
    if d.Some? && r.Some? && d.value.value == r.value {
      CoverFences(g.log, d.value.at);
    }
  }

  lemma CheckMoves(g: Gate, a: CheckPc, ch: Choice)
    requires Ready(g, AtCheck(a))
    ensures var (g', pc') := CheckStep(g, a, ch); Moves(g, AtCheck(a), ch, g', pc')
  {
    if a.CheckEpochs? {
      EpochsMoves(g, a, ch);
    }
  }

  lemma StepMoves(g: Gate, pc: Pc, ch: Choice)
    requires Ready(g, pc)
    ensures var (g', pc') := Step(g, pc, ch); Moves(g, pc, ch, g', pc')
  {
    match pc {
      case Idle =>
      case AtNote(n) => NoteMoves(g, n, ch);
      case AtClear(c, k) => ClearMoves(g, c, k, ch);
      case AtClose(x) => CloseMoves(g, x, ch);
      case AtOpen(o) => OpenMoves(g, o, ch);
      case AtReset(r) => ResetMoves(g, r, ch);
      case AtDrain(d) => DrainMoves(g, d, ch);
      case AtCheck(a) => CheckMoves(g, a, ch);
    }
  }

  lemma StepPhases(g: Gate, pc: Pc, ch: Choice)
    ensures var (g', pc') := Step(g, pc, ch); PhaseMoves(g, pc, ch, g', pc')
  {
  }

  lemma GateStep(g: Gate, pc: Pc, g': Gate)
    requires GateOk(g) && Grown(g.log, g'.log) && (g'.log != g.log ==> EventOk(g, pc, g'.log[|g.log|]))
    requires g'.generation >= g.generation && g'.drained <= g.discard && Covered(g.log, g'.drained)
    requires g'.discard == g.discard + (if g'.log != g.log && g'.log[|g.log|].Stale? then 1 else 0)
    requires g'.word.open ==> g'.word == PUBLISHED
    ensures GateOk(g')
  {
    if g'.log != g.log {
      var e := g'.log[|g.log|];
      StaleCountAppend(g.log, e);
      LogAppend(g.log, e);
      CoveredAppend(g.log, e, g'.drained);
    }
  }

  lemma PcStable(g: Gate, g': Gate, pc: Pc)
    requires Grown(g.log, g'.log) && g.discard <= g'.discard && PcOk(g, pc)
    requires PastGeneration(pc) ==> g'.log == g.log || !g'.log[|g.log|].ResetDone?
    ensures PcOk(g', pc)
  {
    if g'.log != g.log {
      var e := g'.log[|g.log|];
      StaleCountAppend(g.log, e);
      forall n | Covered(g.log, n) ensures Covered(g'.log, n) {
        CoveredAppend(g.log, e, n);
      }
      forall b: nat | b <= |g.log| ensures g'.log[..b] == g.log[..b] {
      }
    }
  }

  lemma CountStep(c: Config, t: nat, ch: Choice)
    requires Inv(c) && Enabled(c, t, ch)
    ensures Ready(c.gate, c.threads[t])
    ensures var c' := Apply(c, t, ch);
            c'.gate.active == Count(c'.threads, InActive) && c'.gate.word.count == Count(c'.threads, Registered)
  {
    CountBounds(c.threads, Registered);
    StepMoves(c.gate, c.threads[t], ch);
    CountMove(c.threads, t, Step(c.gate, c.threads[t], ch).1, InActive);
    CountMove(c.threads, t, Step(c.gate, c.threads[t], ch).1, Registered);
  }

  lemma OthersStayPut(c: Config, t: nat, ch: Choice)
    requires Inv(c) && Enabled(c, t, ch)
    ensures Barred(Apply(c, t, ch)) && OneResetter(Apply(c, t, ch).threads)
    ensures var c' := Apply(c, t, ch); forall u :: u in c'.threads && Holds(c'.threads[u]) ==> c'.gate.phase == Resetting
  {
    var c' := Apply(c, t, ch);
    StepPhases(c.gate, c.threads[t], ch);
    CountBounds(c.threads, InActive);
    assert PhaseMoves(c.gate, c.threads[t], ch, c'.gate, c'.threads[t]);
  }

  lemma StepKeepsInv(c: Config, t: nat, ch: Choice)
    requires Inv(c) && Enabled(c, t, ch)
    ensures Inv(Apply(c, t, ch)) && c.gate.log <= Apply(c, t, ch).gate.log
  {
    var c' := Apply(c, t, ch);
    CountStep(c, t, ch);
    OthersStayPut(c, t, ch);
    StepMoves(c.gate, c.threads[t], ch);
    GateStep(c.gate, c.threads[t], c'.gate);
    assert |c'.threads| == |c.threads| by {
      assert c'.threads.Keys == c.threads.Keys;
      assert |c'.threads.Keys| == |c'.threads| && |c.threads.Keys| == |c.threads|;
    }
    forall u | u in c'.threads ensures PcOk(c'.gate, c'.threads[u]) {
      if u != t {
        PcStable(c.gate, c'.gate, c.threads[u]);
      }
    }
  }

  lemma {:induction false} RunKeepsInv(run: seq<Config>, i: nat)
    requires IsRun(run) && i < |run|
    ensures Inv(run[i])
  {
    hide Step;
    if i == 0 {
      assert Where(run[0].threads, InActive) == {} && Where(run[0].threads, Registered) == {};
    } else {
      RunKeepsInv(run, i - 1);
      assert Next(run[i - 1], run[i]);
      var t, ch :| Enabled(run[i - 1], t, ch) && run[i] == Apply(run[i - 1], t, ch);
      StepKeepsInv(run[i - 1], t, ch);
    }
  }

  // ----- The guarantees over whole runs -----

  lemma {:induction false} LogGrows(run: seq<Config>, i: nat, j: nat)
    requires IsRun(run) && i <= j < |run|
    ensures run[i].gate.log <= run[j].gate.log
    decreases j
  {
    hide Inv, Init, Step;
    if i < j {
      LogGrows(run, i, j - 1);
      RunKeepsInv(run, j - 1);
      assert Next(run[j - 1], run[j]);
      var t, ch :| Enabled(run[j - 1], t, ch) && run[j] == Apply(run[j - 1], t, ch);
      StepKeepsInv(run[j - 1], t, ch);
    }
  }

  /** The step with which a reset returns. */
  ghost predicate Returns(run: seq<Config>, i: nat) {
    i + 1 < |run| && exists t, ch :: Enabled(run[i], t, ch) && run[i].threads[t] == AtReset(ResetPublish) && run[i + 1] == Apply(run[i], t, ch)
  }

  /** The reset barrier, first half: when reset returns, no admitted command is running and none
      has passed the phase check that follows its join. */
  lemma ResetBarrier(run: seq<Config>, i: nat, u: nat)
    requires IsRun(run) && Returns(run, i) && u in run[i + 1].threads
    ensures !PastPhase(run[i + 1].threads[u])
  {
    RunKeepsInv(run, i);
  }

  lemma ReturnIsLogged(run: seq<Config>, i: nat)
    requires IsRun(run) && Returns(run, i)
    ensures var r := |run[i].gate.log|;
            |run[i + 1].gate.log| == r + 1 && run[i + 1].gate.log[r] == ResetDone(run[i + 1].gate.generation)
  {
  }

  /** The reset barrier, second half: no command tagged with a generation earlier than the one
      the reset returned at is admitted after it, whatever opens and closes race with it. */
  lemma NoEarlierFrameAfterReset(run: seq<Config>, i: nat, j: nat, k: nat)
    requires IsRun(run) && Returns(run, i) && i < j < |run|
    requires |run[i + 1].gate.log| <= k < |run[j].gate.log|
    requires run[j].gate.log[k].Admitted? && run[j].gate.log[k].use == After
    ensures run[i + 1].gate.generation <= run[j].gate.log[k].generation
  {
    var r := |run[i].gate.log|;
    ReturnIsLogged(run, i);
    RunKeepsInv(run, j);
    LogGrows(run, i + 1, j);
    assert AdmissionOk(run[j].gate.log, k);
    assert run[j].gate.log[..k][r] == run[i + 1].gate.log[r];
  }

  /** The stale-receive fence: whenever a snapshot or a command is admitted, each stale
      notification recorded before its discard-epoch load was followed by an empty read that
      began after that notification and ended before the admission. */
  lemma StaleFence(run: seq<Config>, i: nat, k: nat)
    requires IsRun(run) && i < |run| && k < |run[i].gate.log| && run[i].gate.log[k].Admitted?
    ensures run[i].gate.log[k].checked <= k
    ensures forall n: nat :: n < run[i].gate.log[k].checked && run[i].gate.log[n].Stale? ==>
              exists e: nat :: e < k && run[i].gate.log[e].EmptyRead? && n < run[i].gate.log[e].begun
  {
    RunKeepsInv(run, i);
    assert AdmissionOk(run[i].gate.log, k);
    assert Fenced(run[i].gate.log, k, run[i].gate.log[k].checked);
  }

  /** What the shared words mean at every point of every run. The saturation branches of the
      29-bit count are never taken with fewer threads than the count can hold. */
  lemma WordsMean(run: seq<Config>, i: nat)
    requires IsRun(run) && i < |run|
    ensures run[i].gate.word.count == Count(run[i].threads, Registered)
    ensures run[i].gate.active == Count(run[i].threads, InActive)
    ensures run[i].gate.word.open ==> run[i].gate.word == PUBLISHED
    ensures run[i].gate.drained <= run[i].gate.discard == StaleCount(run[i].gate.log)
    ensures run[i].gate.word.count < COUNT_MASK
    ensures forall t :: t in run[i].threads && run[i].threads[t].AtNote? ==>
              !run[i].threads[t].n.NoteFullEpoch? && !run[i].threads[t].n.NoteFullDirty?
  {
    RunKeepsInv(run, i);
    CountBounds(run[i].threads, Registered);
  }
}
