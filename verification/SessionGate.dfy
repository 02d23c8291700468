/** The USB CDC session gate as a state machine over its atomic steps.

    A finite set of threads (TinyUSB callbacks, the command worker, openers, closers and one
    resetter) share the gate. Every load, compare-and-swap and fetch operation of
    `usb_cdc_session_gate.c` is one step of one thread, and every interleaving of these steps
    is a run. `Gate.log` is a history variable: it records what happened and in which order,
    and no step ever branches on it. */
module SessionGate {
  import opened Wrappers

  datatype Phase = Closed | Open | Resetting

  /** The packed admission word: three flag bits and a 29-bit count of classifying callbacks. */
  datatype Word = Word(open: bool, dirty: bool, opening: bool, count: int)

  const COUNT_MASK: nat := 0x2000_0000 - 1
  const CLEAN := Word(false, false, false, 0)
  const RESERVED := Word(false, false, true, 0)
  const PUBLISHED := Word(true, false, false, 0)

  /** The admission checks of the gate: the two rounds of `snapshot`, `snapshot_is_current`,
      and the checks of `command_begin` before and after it joins the active commands. */
  datatype Use = First | Second | Current | Before | After

  datatype Event =
    | Stale                                             // a notification was added to the discard epoch
    | EmptyRead(begun: nat)                             // a read that began at log position `begun` came back empty
    | Admitted(use: Use, generation: int, checked: nat) // an admission whose discard load was at `checked`
    | ResetDone(generation: int)                        // reset returned at this generation
    | OpenTrue                                          // open returned true

  datatype Gate = Gate(generation: int, active: int, phase: Phase, word: Word,
                       discard: int, drained: int, log: seq<Event>)

  const INITIAL := Gate(1, 0, Closed, CLEAN, 0, 0, [])

  /** A load of the discard epoch, with the log position at which it happened. */
  datatype Sample = Sample(value: int, at: nat)

  /** Where the shared clear-dirty routine goes back to. */
  datatype Return = ToCaller | ToReset

  datatype NotePc = NoteLoad | NoteCas(w: Word) | NoteEpoch | NoteDirty | NoteLeave | NoteFullEpoch | NoteFullDirty
  datatype ClearPc = ClearLoad | ClearEpochs(w: Word, d: Option<Sample>, r: Option<int>) | ClearCas(w: Word)
  datatype ClosePc =
    | CancelLoad | CancelCas(w: Word)
    | BoundaryLoad | BoundaryCas(w: Word) | BoundaryEpoch(joined: bool) | BoundaryLeave
    | CloseCas | CloseGeneration
  datatype OpenPc =
    | OpenLoad | OpenAgain | OpenAgainEpochs(d: Option<Sample>, r: Option<int>)
    | OpenReserve | OpenPhase | OpenPhaseCas | OpenVerify | OpenPublish | OpenConfirm
  datatype ResetPc = ResetStore | ResetWord | ResetWordCas(w: Word) | ResetGeneration | ResetWait | ResetPublish
  datatype DrainPc =
    | DrainLoad | DrainBegin(observed: int) | DrainRead(observed: int, begun: nat)
    | DrainMark(observed: int) | DrainCas(observed: int, current: int)
  datatype CheckPc =
    | SnapshotLoad
    | CheckPhase(u: Use, gen: int) | CheckGeneration(u: Use, gen: int) | CheckWord(u: Use, gen: int)
    | CheckEpochs(u: Use, gen: int, d: Option<Sample>, r: Option<int>)
    | Join(gen: int) | BackOut | Running(gen: int)

  /** A thread's program counter with its local variables. */
  datatype Pc =
    | Idle
    | AtNote(n: NotePc)
    | AtClear(c: ClearPc, k: Return)
    | AtClose(x: ClosePc)
    | AtOpen(o: OpenPc)
    | AtReset(r: ResetPc)
    | AtDrain(d: DrainPc)
    | AtCheck(a: CheckPc)

  /** The call an idle thread makes, and the outcomes the schedule decides. */
  datatype Call = NoteRx | OpenGate | CloseGate | Reset | Drain | Snapshot | IsCurrent(gen: int) | Command(gen: int)
  datatype Choice = Choice(call: Call, spurious: bool, drainedFirst: bool, empty: bool)

  function Started(call: Call): Pc {
    match call
    case NoteRx => AtNote(NoteLoad)
    case OpenGate => AtOpen(OpenLoad)
    case CloseGate => AtClose(CloseCas)
    case Reset => AtReset(ResetStore)
    case Drain => AtDrain(DrainLoad)
    case Snapshot => AtCheck(SnapshotLoad)
    case IsCurrent(gen) => AtCheck(CheckPhase(Current, gen))
    case Command(gen) => AtCheck(CheckPhase(Before, gen))
  }

  /** What note_rx does with a word it has just loaded. */
  function NoteWith(w: Word): Pc {
    if w == PUBLISHED then Idle
    else if w.count == COUNT_MASK then AtNote(NoteFullEpoch)
    else AtNote(NoteCas(w))
  }

  function NoteStep(g: Gate, n: NotePc, ch: Choice): (Gate, Pc) {
    match n
    case NoteLoad => (g, NoteWith(g.word))
    case NoteCas(w) =>
      if g.word == w && !ch.spurious then (g.(word := w.(count := w.count + 1)), AtNote(NoteEpoch))
      else (g, NoteWith(g.word))
    case NoteEpoch => (AddStale(g), AtNote(NoteDirty))
    case NoteDirty => (g.(word := g.word.(dirty := true)), AtNote(NoteLeave))
    case NoteLeave => (g.(word := g.word.(count := g.word.count - 1)), Idle)
    case NoteFullEpoch => (AddStale(g), AtNote(NoteFullDirty))
    case NoteFullDirty => (g.(word := g.word.(dirty := true)), Idle)
  }

  function AfterClear(k: Return): Pc {
    if k == ToReset then AtReset(ResetGeneration) else Idle
  }

  /** The steps of `gate_try_clear_rx_dirty`. */
  function ClearStep(g: Gate, c: ClearPc, k: Return, ch: Choice): (Gate, Pc) {
    match c
    case ClearLoad =>
      if g.word.open || g.word.opening || !g.word.dirty || g.word.count != 0 then (g, AfterClear(k))
      else (g, AtClear(ClearEpochs(g.word, None, None), k))
    case ClearEpochs(w, d, r) =>
      var (d', r') := LoadEpoch(g, d, r, ch);
      if d'.None? || r'.None? then (g, AtClear(ClearEpochs(w, d', r'), k))
      else if d'.value.value != r'.value then (g, AfterClear(k))
      else (g, AtClear(ClearCas(w), k))
    case ClearCas(w) =>
      if g.word == w && !ch.spurious then (g.(word := w.(dirty := false)), AfterClear(k))
      else (g, AtClear(ClearLoad, k))
  }

  function CancelWith(w: Word): Pc {
    if !w.opening then Idle else AtClose(CancelCas(w))
  }

  /** The mark that invalidates a session boundary joins the count unless the count is full. */
  function BoundaryWord(w: Word): Word {
    Word(false, true, false, if w.count == COUNT_MASK then w.count else w.count + 1)
  }

  /** The steps of `gate_cancel_rx_opening`, `gate_mark_rx_boundary_stale` and `close`. */
  function CloseStep(g: Gate, x: ClosePc, ch: Choice): (Gate, Pc) {
    match x
    case CancelLoad => (g, CancelWith(g.word))
    case CancelCas(w) =>
      if g.word == w && !ch.spurious then (g.(word := w.(opening := false)), AtClear(ClearLoad, ToCaller))
      else (g, CancelWith(g.word))
    case BoundaryLoad => (g, AtClose(BoundaryCas(g.word)))
    case BoundaryCas(w) =>
      if g.word == w && !ch.spurious then (g.(word := BoundaryWord(w)), AtClose(BoundaryEpoch(w.count != COUNT_MASK)))
      else (g, AtClose(BoundaryCas(g.word)))
    case BoundaryEpoch(joined) => (AddStale(g), if joined then AtClose(BoundaryLeave) else AtClear(ClearLoad, ToCaller))
    case BoundaryLeave => (g.(word := g.word.(count := g.word.count - 1)), AtClear(ClearLoad, ToCaller))
    case CloseCas => if g.phase == Open then (g.(phase := Closed), AtClose(CloseGeneration)) else (g, Idle)
    case CloseGeneration => (g.(generation := g.generation + 1), AtClose(BoundaryLoad))
  }

  function OpenStep(g: Gate, o: OpenPc, ch: Choice): (Gate, Pc) {
    match o
    case OpenLoad =>
      (g, if g.phase == Resetting then Idle else AtOpen(if g.phase == Open then OpenAgain else OpenReserve))
    case OpenAgain => (g, AtOpen(if g.word == PUBLISHED then OpenAgainEpochs(None, None) else OpenReserve))
    case OpenAgainEpochs(d, r) =>
      var (d', r') := LoadEpoch(g, d, r, ch);
      if d'.None? || r'.None? then (g, AtOpen(OpenAgainEpochs(d', r')))
      else if d'.value.value != r'.value then (g, Idle)
      else (g.(log := g.log + [OpenTrue]), Idle)
    case OpenReserve => if g.word == CLEAN then (g.(word := RESERVED), AtOpen(OpenPhase)) else (g, Idle)
    case OpenPhase =>
      (g, if g.phase == Closed then AtOpen(OpenPhaseCas) else if g.phase == Open then AtOpen(OpenVerify) else AtClose(CancelLoad))
    case OpenPhaseCas =>
      if g.phase == Closed then (g.(phase := Open), AtOpen(OpenVerify))
      else if g.phase == Open then (g, AtOpen(OpenVerify))
      else (g, AtClose(CancelLoad))
    case OpenVerify => (g, if g.phase == Open then AtOpen(OpenPublish) else AtClose(CancelLoad))
    case OpenPublish =>
      if g.word == RESERVED then (g.(word := PUBLISHED), AtOpen(OpenConfirm)) else (g, AtClose(CancelLoad))
    case OpenConfirm =>
      if g.phase == Open then (g.(log := g.log + [OpenTrue]), Idle) else (g, AtClose(BoundaryLoad))
  }

  function ResetWith(w: Word): Pc {
    AtReset(if !w.open && !w.opening then ResetGeneration else ResetWordCas(w))
  }

  /** The steps of `reset`, with `gate_close_rx_admission` inside it. */
  function ResetStep(g: Gate, r: ResetPc, ch: Choice): (Gate, Pc) {
    match r
    case ResetStore => (g.(phase := Resetting), AtReset(ResetWord))
    case ResetWord => (g, ResetWith(g.word))
    case ResetWordCas(w) =>
      if g.word == w && !ch.spurious then (g.(word := w.(open := false, opening := false)), AtClear(ClearLoad, ToReset))
      else (g, ResetWith(g.word))
    case ResetGeneration => (g.(generation := g.generation + 1), AtReset(ResetWait))
    case ResetWait => (g, AtReset(if g.active == 0 then ResetPublish else ResetWait))
    case ResetPublish => (g.(phase := Closed, log := g.log + [ResetDone(g.generation)]), Idle)
  }

  function DrainWith(observed: int, current: int): Pc {
    if current < observed then AtDrain(DrainCas(observed, current)) else AtClear(ClearLoad, ToCaller)
  }

  /** The worker's drain pass: load the epoch, read, and mark the epoch only after an empty read. */
  function DrainStep(g: Gate, d: DrainPc, ch: Choice): (Gate, Pc) {
    match d
    case DrainLoad => (g, AtDrain(DrainBegin(g.discard)))
    case DrainBegin(observed) => (g, AtDrain(DrainRead(observed, |g.log|)))
    case DrainRead(observed, begun) =>
      if ch.empty then (g.(log := g.log + [EmptyRead(begun)]), AtDrain(DrainMark(observed))) else (g, Idle)
    case DrainMark(observed) => (g, DrainWith(observed, g.drained))
    case DrainCas(observed, current) =>
      if g.drained == current && !ch.spurious then (g.(drained := observed), AtClear(ClearLoad, ToCaller))
      else (g, DrainWith(observed, g.drained))
  }

  /** Where a failed admission check goes. */
  function Refused(u: Use): Pc {
    if u == After then AtCheck(BackOut) else Idle
  }

  /** Where a passed admission check goes. */
  function Passed(u: Use, gen: int): Pc {
    match u
    case First => AtCheck(CheckPhase(Second, gen))
    case Before => AtCheck(Join(gen))
    case After => AtCheck(Running(gen))
    case _ => Idle
  }

  /** The admission checks of `snapshot`, `snapshot_is_current` and `command_begin`, and `command_end`. */
  function CheckStep(g: Gate, a: CheckPc, ch: Choice): (Gate, Pc) {
    match a
    case SnapshotLoad => (g, AtCheck(CheckPhase(First, g.generation)))
    case CheckPhase(u, gen) =>
      (g, if g.phase != Open then Refused(u) else AtCheck(if u == First then CheckWord(u, gen) else CheckGeneration(u, gen)))
    case CheckGeneration(u, gen) => (g, if g.generation != gen then Refused(u) else AtCheck(CheckWord(u, gen)))
    case CheckWord(u, gen) => (g, if g.word != PUBLISHED then Refused(u) else AtCheck(CheckEpochs(u, gen, None, None)))
    case CheckEpochs(u, gen, d, r) =>
      var (d', r') := LoadEpoch(g, d, r, ch);
      if d'.None? || r'.None? then (g, AtCheck(CheckEpochs(u, gen, d', r')))
      else if d'.value.value != r'.value then (g, Refused(u))
      else (g.(log := g.log + [Admitted(u, gen, d'.value.at)]), Passed(u, gen))
    case Join(gen) => (g.(active := g.active + 1), AtCheck(CheckPhase(After, gen)))
    case BackOut => (g.(active := g.active - 1), Idle)
    case Running(gen) => (g.(active := g.active - 1), Idle)
  }

  /** One atomic step of a thread at `pc`. */
  function Step(g: Gate, pc: Pc, ch: Choice): (Gate, Pc) {
    match pc
    case Idle => (g, Started(ch.call))
    case AtNote(n) => NoteStep(g, n, ch)
    case AtClear(c, k) => ClearStep(g, c, k, ch)
    case AtClose(x) => CloseStep(g, x, ch)
    case AtOpen(o) => OpenStep(g, o, ch)
    case AtReset(r) => ResetStep(g, r, ch)
    case AtDrain(d) => DrainStep(g, d, ch)
    case AtCheck(a) => CheckStep(g, a, ch)
  }

  function AddStale(g: Gate): Gate {
    g.(discard := g.discard + 1, log := g.log + [Stale])
  }

  /** The two epoch loads of one comparison happen in either order, one per step. */
  function LoadEpoch(g: Gate, d: Option<Sample>, r: Option<int>, ch: Choice): (Option<Sample>, Option<int>) {
    if r.None? && (d.Some? || ch.drainedFirst) then (d, Some(g.drained))
    else (Some(Sample(g.discard, |g.log|)), r)
  }

  // ----- Configurations and runs -----

  datatype Config = Config(gate: Gate, threads: map<nat, Pc>)

  predicate InReset(pc: Pc) {
    pc.AtReset? || (pc.AtClear? && pc.k == ToReset)
  }

  /** A thread may take a step; a reset starts only when no other thread is inside one. */
  predicate Enabled(c: Config, t: nat, ch: Choice) {
    t in c.threads &&
    (c.threads[t].Idle? && ch.call.Reset? ==> forall u :: u in c.threads ==> !InReset(c.threads[u]))
  }

  function Apply(c: Config, t: nat, ch: Choice): Config
    requires t in c.threads
  {
    var (g, pc) := Step(c.gate, c.threads[t], ch);
    Config(g, c.threads[t := pc])
  }

  ghost predicate Next(c: Config, c': Config) {
    exists t, ch :: Enabled(c, t, ch) && c' == Apply(c, t, ch)
  }

  /** A start state: any finite set of threads, smaller than the word's count field. */
  ghost predicate Init(c: Config) {
    c.gate == INITIAL && (forall t :: t in c.threads ==> c.threads[t] == Idle) && |c.threads| < COUNT_MASK
  }

  ghost predicate IsRun(run: seq<Config>) {
    |run| > 0 && Init(run[0]) && forall i :: 0 <= i < |run| - 1 ==> Next(run[i], run[i + 1])
  }

  // ----- Counting threads -----

  function Where(threads: map<nat, Pc>, p: Pc -> bool): set<nat> {
    set t | t in threads && p(threads[t])
  }

  function Count(threads: map<nat, Pc>, p: Pc -> bool): nat {
    |Where(threads, p)|
  }

  lemma CountMove(threads: map<nat, Pc>, t: nat, pc: Pc, p: Pc -> bool)
    requires t in threads
    ensures Count(threads[t := pc], p) == Count(threads, p) + (if p(pc) then 1 else 0) - (if p(threads[t]) then 1 else 0)
  {
    var rest := Where(threads, p) - {t};
    assert Where(threads, p) == if p(threads[t]) then rest + {t} else rest;
    assert Where(threads[t := pc], p) == if p(pc) then rest + {t} else rest;
  }

  lemma CountBounds(threads: map<nat, Pc>, p: Pc -> bool)
    ensures Count(threads, p) <= |threads|
    ensures Count(threads, p) == 0 ==> forall t :: t in threads ==> !p(threads[t])
  {
    var s := Where(threads, p);
    assert threads.Keys == s + (threads.Keys - s);
    assert |threads.Keys| == |s| + |threads.Keys - s|;
    forall t | t in threads && p(threads[t]) ensures |s| > 0 {
      assert t in s;
    }
  }
}
