/** No call leaves anything behind: when no call is under way, nothing is reserved or registered, and a
    published word stands only in an open session. */
module SessionGateRest {
  import opened SessionGate
  import opened SessionGateSafety
  import opened SessionGateAlone

  /** The thread answers for a reservation: it will publish it or take it back. */
  predicate Reserving(pc: Pc) {
    || (pc.AtOpen? && (pc.o.OpenPhase? || pc.o.OpenPhaseCas? || pc.o.OpenVerify? || pc.o.OpenPublish?))
    || (pc.AtClose? && (pc.x.CancelLoad? || pc.x.CancelCas?))
  }

  /** The thread answers for a word published outside an open session: it will take it back. */
  predicate Closing(pc: Pc) {
    || pc == AtOpen(OpenConfirm)
    || (pc.AtClose? && (pc.x.CloseGeneration? || pc.x.BoundaryLoad? || pc.x.BoundaryCas?))
    || (pc.AtReset? && (pc.r.ResetWord? || pc.r.ResetWordCas?))
  }

  predicate Stray(g: Gate) {
    g.word.open && g.phase != Open
  }

  /** A command that has begun. */
  predicate InCommand(pc: Pc) {
    pc.AtCheck? && pc.a.Running?
  }

  ghost predicate Answered(c: Config) {
    && (c.gate.word.opening ==> exists t :: t in c.threads && Reserving(c.threads[t]))
    && (Stray(c.gate) ==> exists t :: t in c.threads && Closing(c.threads[t]))
    && (c.gate.phase == Resetting ==> exists t :: t in c.threads && Holds(c.threads[t]))
  }

  /** A thread stops answering only for what is gone, and starts with what it makes. */
  lemma StepAnswers(g: Gate, pc: Pc, ch: Choice)
    requires Holds(pc) ==> g.phase == Resetting
    ensures var (g', pc') := Step(g, pc, ch); g'.word.opening && !Reserving(pc') ==> g.word.opening && !Reserving(pc)
    ensures var (g', pc') := Step(g, pc, ch); Stray(g') && !Closing(pc') ==> Stray(g) && !Closing(pc)
    ensures var (g', pc') := Step(g, pc, ch); g'.phase == Resetting && !Holds(pc') ==> g.phase == Resetting && !Holds(pc)
  {
  }

  lemma KeepsAnswered(c: Config, t: nat, ch: Choice)
    requires Inv(c) && Enabled(c, t, ch) && Answered(c)
    ensures Answered(Apply(c, t, ch))
  {
    hide Step, Reserving, Closing, Stray, Holds;
    assert Holds(c.threads[t]) ==> c.gate.phase == Resetting;
    StepAnswers(c.gate, c.threads[t], ch);
    var d := Apply(c, t, ch);
    if d.gate.word.opening && !Reserving(d.threads[t]) {
      var u :| u in c.threads && Reserving(c.threads[u]);
      assert d.threads[u] == c.threads[u];
    }
    if Stray(d.gate) && !Closing(d.threads[t]) {
      var u :| u in c.threads && Closing(c.threads[u]);
      assert d.threads[u] == c.threads[u];
    }
    if d.gate.phase == Resetting && !Holds(d.threads[t]) {
      var u :| u in c.threads && Holds(c.threads[u]);
      assert d.threads[u] == c.threads[u];
    }
  }

  lemma {:induction false} RunAnswered(run: seq<Config>, i: nat)
    requires IsRun(run) && i < |run|
    ensures Answered(run[i])
  {
    hide Step, Inv;
    if i > 0 {
      RunAnswered(run, i - 1);
      RunKeepsInv(run, i - 1);
      assert Next(run[i - 1], run[i]);
      var t, ch :| Enabled(run[i - 1], t, ch) && run[i] == Apply(run[i - 1], t, ch);
      KeepsAnswered(run[i - 1], t, ch);
    }
  }

  /** In every run, in a state where no call is under way but commands may be running. */
  lemma NothingLeftBehind(run: seq<Config>, i: nat)
    requires IsRun(run) && i < |run| && forall t :: t in run[i].threads ==> Rests(run[i].threads[t])
    ensures var g := run[i].gate; g.word.count == 0 && !g.word.opening && (g.word.open ==> g.word == PUBLISHED && g.phase == Open)
    ensures run[i].gate.phase != Resetting
    ensures run[i].gate.active == Count(run[i].threads, InCommand)
  {
    hide Step, Inv;
    RunAnswered(run, i);
    WordsMean(run, i);
    var c := run[i];
    assert Where(c.threads, Registered) == {};
    assert Where(c.threads, InActive) == Where(c.threads, InCommand);
  }
}
