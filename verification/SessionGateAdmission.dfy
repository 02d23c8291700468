/** What every admission has seen, whatever other threads do: inside its check the session was open, the
    admission word published, and the generation its own. */
module SessionGateAdmission {
  import opened Wrappers
  import opened SessionGate
  import opened SessionGateSafety
  import opened SessionGateOpening

  /** Thread `t` has been where `p` holds since it took step `i`, up to state `j`. */
  ghost predicate Since(run: seq<Config>, i: nat, j: nat, t: nat, p: Pc -> bool) {
    i < j < |run| && t in run[i].threads && !p(run[i].threads[t]) && forall k :: i < k <= j ==> t in run[k].threads && p(run[k].threads[t])
  }

  lemma {:induction false} EnteredBehind(run: seq<Config>, j: nat, t: nat, p: Pc -> bool) returns (i: nat, ch: Choice)
    requires IsRun(run) && j < |run| && t in run[j].threads && p(run[j].threads[t]) && !p(Idle)
    ensures Since(run, i, j, t, p) && Takes(run, i, t, ch)
  {
    hide Step;
    assert j > 0;
    assert Next(run[j - 1], run[j]);
    var u, c :| Enabled(run[j - 1], u, c) && run[j] == Apply(run[j - 1], u, c);
    assert t in run[j - 1].threads;
    if p(run[j - 1].threads[t]) {
      i, ch := EnteredBehind(run, j - 1, t, p);
    } else {
      i, ch := j - 1, c;
    }
  }

  // ----- The stages of a check -----

  predicate AtPhase(pc: Pc, u: Use, gen: int) {
    pc == AtCheck(CheckPhase(u, gen))
  }

  predicate AtGeneration(pc: Pc, u: Use, gen: int) {
    pc == AtCheck(CheckGeneration(u, gen))
  }

  predicate AtWord(pc: Pc, u: Use, gen: int) {
    pc == AtCheck(CheckWord(u, gen))
  }

  predicate AtEpochs(pc: Pc, u: Use, gen: int) {
    pc.AtCheck? && pc.a.CheckEpochs? && pc.a.u == u && pc.a.gen == gen
  }

  /** The thread is inside this check. */
  predicate Checking(pc: Pc, u: Use, gen: int) {
    AtPhase(pc, u, gen) || AtGeneration(pc, u, gen) || AtWord(pc, u, gen) || AtEpochs(pc, u, gen)
  }

  lemma IntoEpochs(g: Gate, pc: Pc, ch: Choice, u: Use, gen: int)
    requires !AtEpochs(pc, u, gen) && AtEpochs(Step(g, pc, ch).1, u, gen)
    ensures AtWord(pc, u, gen) && g.word == PUBLISHED
  {
  }

  lemma IntoWord(g: Gate, pc: Pc, ch: Choice, u: Use, gen: int)
    requires !AtWord(pc, u, gen) && AtWord(Step(g, pc, ch).1, u, gen)
    ensures (u == First && AtPhase(pc, u, gen) && g.phase == Open) || (AtGeneration(pc, u, gen) && g.generation == gen)
  {
  }

  lemma IntoGeneration(g: Gate, pc: Pc, ch: Choice, u: Use, gen: int)
    requires !AtGeneration(pc, u, gen) && AtGeneration(Step(g, pc, ch).1, u, gen)
    ensures AtPhase(pc, u, gen) && g.phase == Open
  {
  }

  lemma IntoSnapshot(g: Gate, pc: Pc, ch: Choice, gen: int)
    requires !AtPhase(pc, First, gen) && AtPhase(Step(g, pc, ch).1, First, gen)
    ensures pc == AtCheck(SnapshotLoad) && g.generation == gen
  {
  }

  /** The states a passed check has seen, one after the other in its own call. */
  lemma SeenBefore(run: seq<Config>, j: nat, t: nat, u: Use, gen: int) returns (first: nat, phase: nat, generation: nat, word: nat)
    requires IsRun(run) && j < |run| && t in run[j].threads && AtEpochs(run[j].threads[t], u, gen)
    ensures Seen(run, j, t, u, gen, first, phase, generation, word)
  {
    hide Step;
    var ch;
    word, ch := EnteredBehind(run, j, t, pc => AtEpochs(pc, u, gen));
    IntoEpochs(run[word].gate, run[word].threads[t], ch, u, gen);
    var entered;
    entered, ch := EnteredBehind(run, word, t, pc => AtWord(pc, u, gen));
    IntoWord(run[entered].gate, run[entered].threads[t], ch, u, gen);
    if AtPhase(run[entered].threads[t], u, gen) {
      phase := entered;
      generation, ch := EnteredBehind(run, phase, t, pc => AtPhase(pc, u, gen));
      IntoSnapshot(run[generation].gate, run[generation].threads[t], ch, gen);
      first := generation + 1;
    } else {
      generation := entered;
      phase, ch := EnteredBehind(run, generation, t, pc => AtGeneration(pc, u, gen));
      IntoGeneration(run[phase].gate, run[phase].threads[t], ch, u, gen);
      first := phase;
    }
  }

  /** From `first` to `j` thread `t` is inside one check; in it the phase was open and the word published,
      and the generation was `gen`, for a snapshot's first check when it was loaded just before. */
  ghost predicate Seen(run: seq<Config>, j: nat, t: nat, u: Use, gen: int, first: nat, phase: nat, generation: nat, word: nat) {
    && first <= phase < word < j < |run| && first <= generation + 1 <= word
    && (forall k :: first <= k <= j ==> t in run[k].threads && Checking(run[k].threads[t], u, gen))
    && run[phase].gate.phase == Open && run[word].gate.word == PUBLISHED && run[generation].gate.generation == gen
  }

  // ----- The step that records an admission -----

  lemma AdmittingStep(g: Gate, pc: Pc, ch: Choice, k: nat)
    requires |g.log| <= k < |Step(g, pc, ch).0.log|
    ensures k == |g.log|
    ensures var e := Step(g, pc, ch).0.log[k]; e.Admitted? ==> AtEpochs(pc, e.use, e.generation)
  {
  }

  lemma {:induction false} RecordedBehind(run: seq<Config>, n: nat, k: nat) returns (j: nat, t: nat, ch: Choice)
    requires IsRun(run) && n < |run| && k < |run[n].gate.log|
    ensures j < n && Takes(run, j, t, ch) && |run[j].gate.log| == k
    ensures k < |run[j + 1].gate.log| && run[j + 1].gate.log[k] == run[n].gate.log[k]
  {
    hide Step, Inv;
    assert n > 0;
    assert Next(run[n - 1], run[n]);
    if k < |run[n - 1].gate.log| {
      LogGrows(run, n - 1, n);
      j, t, ch := RecordedBehind(run, n - 1, k);
    } else {
      var u, c :| Enabled(run[n - 1], u, c) && run[n] == Apply(run[n - 1], u, c);
      AdmittingStep(run[n - 1].gate, run[n - 1].threads[u], c, k);
      j, t, ch := n - 1, u, c;
    }
  }

  /** In every run, an admission was recorded by a thread that in this very check saw the session open,
      its word published, and the generation it admits. */
  lemma AdmittedWhileOpen(run: seq<Config>, n: nat, k: nat) returns (j: nat, t: nat, first: nat, phase: nat, generation: nat, word: nat)
    requires IsRun(run) && n < |run| && k < |run[n].gate.log| && run[n].gate.log[k].Admitted?
    ensures j < n && |run[j].gate.log| == k
    ensures var e := run[n].gate.log[k]; Seen(run, j, t, e.use, e.generation, first, phase, generation, word)
  {
    hide Step, Inv;
    var ch;
    j, t, ch := RecordedBehind(run, n, k);
    AdmittingStep(run[j].gate, run[j].threads[t], ch, k);
    first, phase, generation, word := SeenBefore(run, j, t, run[n].gate.log[k].use, run[n].gate.log[k].generation);
  }

  // ----- The steps that let open answer true -----

  predicate Confirming(pc: Pc) {
    pc == AtOpen(OpenConfirm)
  }

  predicate Publishing(pc: Pc) {
    pc == AtOpen(OpenPublish)
  }

  predicate Comparing(pc: Pc) {
    pc.AtOpen? && pc.o.OpenAgainEpochs?
  }

  predicate LookingAgain(pc: Pc) {
    pc == AtOpen(OpenAgain)
  }

  lemma IntoConfirm(g: Gate, pc: Pc, ch: Choice)
    requires !Confirming(pc) && Confirming(Step(g, pc, ch).1)
    ensures Publishing(pc) && g.word == RESERVED && Step(g, pc, ch).0 == g.(word := PUBLISHED)
  {
  }

  lemma IntoPublish(g: Gate, pc: Pc, ch: Choice)
    requires !Publishing(pc) && Publishing(Step(g, pc, ch).1)
    ensures pc == AtOpen(OpenVerify) && g.phase == Open
  {
  }

  lemma IntoCompare(g: Gate, pc: Pc, ch: Choice)
    requires !Comparing(pc) && Comparing(Step(g, pc, ch).1)
    ensures LookingAgain(pc) && g.word == PUBLISHED
  {
  }

  lemma IntoAgain(g: Gate, pc: Pc, ch: Choice)
    requires !LookingAgain(pc) && LookingAgain(Step(g, pc, ch).1)
    ensures pc == AtOpen(OpenLoad) && g.phase == Open
  {
  }

  lemma AnsweringStep(g: Gate, pc: Pc, ch: Choice, k: nat)
    requires |g.log| <= k < |Step(g, pc, ch).0.log| && Step(g, pc, ch).0.log[k] == OpenTrue
    ensures (Confirming(pc) && g.phase == Open) || Comparing(pc)
  {
  }

  /** Thread `t` published the word itself: it saw the phase open before that, and again before it answered. */
  ghost predicate PublishedOpen(run: seq<Config>, j: nat, t: nat, phase: nat, word: nat) {
    && phase < word < j < |run| && run[j].gate.phase == Open
    && run[phase].gate.phase == Open && run[word].gate.word == RESERVED && run[word + 1].gate.word == PUBLISHED
    && Since(run, word, j, t, Confirming) && Since(run, phase, word, t, Publishing)
  }

  /** Thread `t` found the phase open and then the word published. */
  ghost predicate FoundOpen(run: seq<Config>, j: nat, t: nat, phase: nat, word: nat) {
    && phase < word < j < |run| && run[phase].gate.phase == Open && run[word].gate.word == PUBLISHED
    && Since(run, word, j, t, Comparing) && Since(run, phase, word, t, LookingAgain)
  }

  /** In every run, an open that answers true has published the word in a phase that it saw open before and
      after, or has found the phase open and the word published. */
  lemma OpenedWhileOpen(run: seq<Config>, n: nat, k: nat) returns (j: nat, t: nat, phase: nat, word: nat)
    requires IsRun(run) && n < |run| && k < |run[n].gate.log| && run[n].gate.log[k] == OpenTrue
    ensures j < n && |run[j].gate.log| == k
    ensures PublishedOpen(run, j, t, phase, word) || FoundOpen(run, j, t, phase, word)
  {
    hide Step, Inv;
    var ch;
    j, t, ch := RecordedBehind(run, n, k);
    AnsweringStep(run[j].gate, run[j].threads[t], ch, k);
    var c;
    if Confirming(run[j].threads[t]) {
      word, c := EnteredBehind(run, j, t, Confirming);
      IntoConfirm(run[word].gate, run[word].threads[t], c);
      phase, c := EnteredBehind(run, word, t, Publishing);
      IntoPublish(run[phase].gate, run[phase].threads[t], c);
    } else {
      word, c := EnteredBehind(run, j, t, Comparing);
      IntoCompare(run[word].gate, run[word].threads[t], c);
      phase, c := EnteredBehind(run, word, t, LookingAgain);
      IntoAgain(run[phase].gate, run[phase].threads[t], c);
    }
  }
}
