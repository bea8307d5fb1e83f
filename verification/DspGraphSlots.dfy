/**
  Handing DSP graphs from the control thread to the audio thread through one packed state word. Each
  atomic load and compare-and-swap is one step (sequentially consistent); preparing and processing a
  graph take any number of steps in between.
*/
module DspGraphSlots {

  const NONE: nat := 3
  const GRAPHS: nat := 2

  // ---------------------------------------------------------------- the packed word

  /** Two bits. */
  type Index = n: nat | n < 4

  datatype Word = Word(active: Index, pending: Index, previous: Index)

  /** The state word of the source: two bits each for active, pending and previous. */
  function Packed(w: Word): bv32 {
    (w.active as bv32) | ((w.pending as bv32) << 2) | ((w.previous as bv32) << 4)
  }

  /** A compare-and-swap finds the expected word: it compares packed words. */
  predicate Finds(word: Word, expected: Word) {
    Packed(word) == Packed(expected)
  }

  /** Packing loses nothing, so that comparing packed words is comparing the three indices. */
  lemma FindsIff(word: Word, expected: Word)
    ensures Finds(word, expected) <==> word == expected
  {
    UnpacksIndices(word);
    UnpacksIndices(expected);
  }

  lemma UnpacksIndices(w: Word)
    ensures Packed(w) & 3 == w.active as bv32
    ensures (Packed(w) >> 2) & 3 == w.pending as bv32
    ensures (Packed(w) >> 4) & 3 == w.previous as bv32
  {
    Unpacks(w.active as bv32, w.pending as bv32, w.previous as bv32);
  }

  lemma Unpacks(active: bv32, pending: bv32, previous: bv32)
    requires active < 4 && pending < 4 && previous < 4
    ensures var word := active | (pending << 2) | (previous << 4);
            word & 3 == active && (word >> 2) & 3 == pending && (word >> 4) & 3 == previous
  {
  }

  const EMPTY := Word(NONE, NONE, NONE)

  // ---------------------------------------------------------------- the two threads

  datatype Graph = Graph(generation: nat, sampleRate: nat)

  datatype Control =
    | ControlIdle
    | InitialLoad(config: Graph)
    | PendingLoad(config: Graph)
    | Preparing(config: Graph, target: nat, expected: Word, desired: Word)
    | Publishing(config: Graph, target: nat, expected: Word, desired: Word)
    | RetractLoad
    | RetractSwap(expected: Word)
    | ResetLoad
    | ResetSwap(expected: Word)

  /** Where a `ReleasePrevious` call of the audio thread returns to. */
  datatype Stage = AfterSwap | AfterReset | AtEnd

  datatype Audio =
    | AudioIdle
    | ConsumeLoad
    | ConsumeSwap(expected: Word)
    | Swapped(active: nat, changed: bool, rateChanged: bool)
    | ReleaseLoad(active: nat, stage: Stage)
    | ReleaseSwap(active: nat, stage: Stage, expected: Word)
    | Mailbox(active: nat)
    | MailboxPrevious(active: nat)
    | MailboxPreviousAgain(active: nat)
    | MaybeReset(active: nat)
    | LoadHeld(active: nat)
    | Processing(active: nat, held: nat)

  /** `activated` lists the generations that became active, oldest first. */
  datatype State = State(
    word: Word,
    graphs: seq<Graph>,
    control: Control,
    audio: Audio,
    activated: seq<nat>,
    lostPublish: bool)

  /** What is not determined by the state: spurious CAS failures, preparation progress, branches. */
  datatype Choice = Go | Fail | Scribble(graph: Graph)

  datatype Step =
    | BeginPrepareInitial(config: Graph)
    | BeginPreparePending(config: Graph)
    | BeginRetract
    | BeginReset
    | ControlStep(choice: Choice)
    | BeginBlock
    | AudioStep(choice: Choice)

  ghost predicate Init(s: State) {
    && s.word == EMPTY && |s.graphs| == GRAPHS && s.control == ControlIdle && s.audio == AudioIdle
    && s.activated == [] && !s.lostPublish
  }

  predicate IsResetting(c: Control) {
    c.ResetLoad? || c.ResetSwap?
  }

  /** Resetting the graphs releases the previous one from the control thread. Unless it is `free` to come at any time it
      comes between blocks, and none begins before it ends. */
  ghost predicate Enabled(s: State, step: Step, free: bool) {
    match step
    case BeginReset => s.control == ControlIdle && (free || s.audio == AudioIdle)
    case BeginPrepareInitial(_) => s.control == ControlIdle
    case BeginPreparePending(_) => s.control == ControlIdle
    case BeginRetract => s.control == ControlIdle
    case ControlStep(_) => s.control != ControlIdle
    case BeginBlock => s.audio == AudioIdle && (free || !IsResetting(s.control))
    case AudioStep(_) => s.audio != AudioIdle
  }

  ghost predicate InRange(s: State) {
    && |s.graphs| == GRAPHS
    && (s.control.Preparing? || s.control.Publishing? ==> s.control.target < GRAPHS)
    && (s.word.active != NONE ==> s.word.active < GRAPHS)
    && (s.word.pending != NONE ==> s.word.pending < GRAPHS)
  }

  ghost function Next(s: State, step: Step): State
    requires InRange(s) && Enabled(s, step, true)
  {
    match step
    case BeginPrepareInitial(config) => s.(control := InitialLoad(config))
    case BeginPreparePending(config) => s.(control := PendingLoad(config))
    case BeginRetract => s.(control := RetractLoad)
    case BeginReset => s.(control := ResetLoad)
    case ControlStep(choice) => NextControl(s, choice)
    case BeginBlock => s.(audio := ConsumeLoad)
    case AudioStep(choice) => NextAudio(s, choice)
  }

  ghost function NextControl(s: State, choice: Choice): State
    requires InRange(s) && s.control != ControlIdle
  {
    match s.control
    case InitialLoad(config) =>
      if s.word != EMPTY then s.(control := ControlIdle)
      else s.(control := Preparing(config, 0, s.word, Word(0, NONE, NONE)))
    case PendingLoad(config) =>
      if s.word.active == NONE || s.word.pending != NONE || s.word.previous != NONE
         || config.generation <= s.graphs[s.word.active].generation
      then s.(control := ControlIdle)
      else
        var target := 1 - s.word.active;
        s.(control := Preparing(config, target, s.word, Word(s.word.active, target, NONE)))
    case Preparing(config, target, expected, desired) =>
      (match choice
       case Scribble(graph) => s.(graphs := s.graphs[target := graph])
       case Fail => s.(control := ControlIdle)
       case Go => s.(graphs := s.graphs[target := config], control := Publishing(config, target, expected, desired)))
    case Publishing(config, target, expected, desired) =>
      if Finds(s.word, expected) then
        s.(word := desired, control := ControlIdle,
           activated := if expected == EMPTY then s.activated + [config.generation] else s.activated)
      else s.(control := ControlIdle, lostPublish := true)
    case RetractLoad => s.(control := RetractSwap(s.word))
    case RetractSwap(expected) =>
      if expected.pending == NONE then s.(control := ControlIdle)
      else if choice == Go && Finds(s.word, expected) then
        s.(word := Word(expected.active, NONE, expected.previous), control := ControlIdle)
      else s.(control := RetractSwap(s.word))
    case ResetLoad => s.(control := ResetSwap(s.word))
    case ResetSwap(expected) =>
      if expected.previous == NONE then s.(control := ControlIdle)
      else if choice == Go && Finds(s.word, expected) then
        s.(word := Word(expected.active, expected.pending, NONE), control := ControlIdle)
      else s.(control := ResetSwap(s.word))
  }

  ghost function NextAudio(s: State, choice: Choice): State
    requires InRange(s) && s.audio != AudioIdle
  {
    match s.audio
    case ConsumeLoad => s.(audio := ConsumeSwap(s.word))
    case ConsumeSwap(expected) =>
      if expected.pending == NONE then s.(audio := Swapped(expected.active, false, false))
      else if choice == Go && Finds(s.word, expected) then
        s.(word := Word(expected.pending, NONE, expected.active),
           activated := s.activated + [s.graphs[expected.pending].generation],
           audio := Swapped(expected.pending, true,
                            expected.active != NONE
                            && s.graphs[expected.active].sampleRate != s.graphs[expected.pending].sampleRate))
      else s.(audio := ConsumeSwap(s.word))
    case Swapped(active, changed, rateChanged) =>
      if active == NONE then s.(audio := AudioIdle)
      else if changed && rateChanged then s.(audio := ReleaseLoad(active, AfterSwap))
      else s.(audio := Mailbox(active))
    case ReleaseLoad(active, stage) => s.(audio := ReleaseSwap(active, stage, s.word))
    case ReleaseSwap(active, stage, expected) =>
      if expected.previous == NONE then s.(audio := Resume(active, stage))
      else if choice == Go && Finds(s.word, expected) then
        s.(word := Word(expected.active, expected.pending, NONE), audio := Resume(active, stage))
      else s.(audio := ReleaseSwap(active, stage, s.word))
    case Mailbox(active) => s.(audio := if choice == Go then MailboxPrevious(active) else MaybeReset(active))
    case MailboxPrevious(active) =>
      s.(audio := if s.word.previous != NONE then MailboxPreviousAgain(active) else MaybeReset(active))
    case MailboxPreviousAgain(active) => s.(audio := MaybeReset(active))
    case MaybeReset(active) =>
      (match choice
       case Go => s.(audio := LoadHeld(active))
       case Scribble(_) => s.(audio := ReleaseLoad(active, AfterReset))
       case Fail => s.(audio := AudioIdle))
    case LoadHeld(active) => s.(audio := Processing(active, s.word.previous))
    case Processing(active, held) =>
      (match choice
       case Scribble(_) => s
       case Fail => s.(audio := AudioIdle)
       case Go => s.(audio := if held != NONE then ReleaseLoad(active, AtEnd) else AudioIdle))
  }

  function Resume(active: nat, stage: Stage): Audio {
    match stage
    case AfterSwap => Mailbox(active)
    case AfterReset => LoadHeld(active)
    case AtEnd => AudioIdle
  }

  // ---------------------------------------------------------------- the invariant

  /** Graph the audio thread treats as active at this point of its block. */
  function Active(a: Audio): nat {
    match a
    case AudioIdle => NONE
    case ConsumeLoad => NONE
    case ConsumeSwap(_) => NONE
    case Swapped(active, _, _) => active
    case ReleaseLoad(active, _) => active
    case ReleaseSwap(active, _, _) => active
    case Mailbox(active) => active
    case MailboxPrevious(active) => active
    case MailboxPreviousAgain(active) => active
    case MaybeReset(active) => active
    case LoadHeld(active) => active
    case Processing(active, _) => active
  }

  /** Every graph the audio thread may touch in its current step. */
  function Touched(s: State): set<nat> {
    {Active(s.audio)}
    + (match s.audio
       case MailboxPreviousAgain(_) => {s.word.previous}
       case Processing(_, held) => {held}
       case _ => {})
  }

  ghost predicate WordOk(s: State) {
    && |s.graphs| == GRAPHS
    && (s.word == EMPTY
        || (s.word.active < GRAPHS
            && (s.word.pending == NONE || (s.word.pending == 1 - s.word.active && s.word.previous == NONE))
            && (s.word.previous == NONE || s.word.previous == 1 - s.word.active)))
  }

  ghost predicate ControlOk(s: State)
    requires WordOk(s)
  {
    match s.control
    case Preparing(config, target, expected, desired) => Reserved(s, config, target, expected, desired)
    case Publishing(config, target, expected, desired) =>
      Reserved(s, config, target, expected, desired) && s.graphs[target] == config
    case _ => true
  }

  /** The word has not moved since it was loaded, and the target is in nobody else's hands. */
  ghost predicate Reserved(s: State, config: Graph, target: nat, expected: Word, desired: Word)
    requires WordOk(s)
  {
    && s.word == expected && target < GRAPHS && target != s.word.active
    && s.word.pending == NONE && s.word.previous == NONE
    && (if s.word == EMPTY then desired == Word(0, NONE, NONE) && target == 0
        else desired == Word(s.word.active, target, NONE)
             && config.generation > s.graphs[s.word.active].generation)
  }

  ghost predicate AudioOk(s: State) {
    && (Active(s.audio) != NONE ==> Active(s.audio) == s.word.active)
    && (IsResetting(s.control) ==> s.audio == AudioIdle)
    && match s.audio
       case ConsumeSwap(expected) => expected.active == NONE || expected.active == s.word.active
       case Processing(_, held) => held == s.word.previous && Active(s.audio) != NONE
       case MailboxPreviousAgain(_) => s.word.previous != NONE && Active(s.audio) != NONE
       case Swapped(_, _, _) => true
       case _ => s.audio.AudioIdle? || s.audio.ConsumeLoad? || Active(s.audio) != NONE
  }

  ghost predicate GenerationsOk(s: State)
    requires WordOk(s)
  {
    && (forall i, j | 0 <= i < j < |s.activated| :: s.activated[i] < s.activated[j])
    && (s.word == EMPTY ==> s.activated == [])
    && (s.word != EMPTY ==>
          s.activated != [] && s.activated[|s.activated| - 1] == s.graphs[s.word.active].generation)
    && (s.word.pending != NONE ==> s.graphs[s.word.pending].generation > s.graphs[s.word.active].generation)
  }

  ghost predicate Inv(s: State) {
    WordOk(s) && ControlOk(s) && AudioOk(s) && GenerationsOk(s) && !s.lostPublish
  }

  lemma InvImpliesInRange(s: State)
    requires Inv(s)
    ensures InRange(s)
  {
  }

  lemma PublishKeepsInv(s: State, choice: Choice)
    requires Inv(s) && s.control.Publishing?
    ensures InRange(s) && Inv(NextControl(s, choice))
  {
    hide Finds;
    hide Packed;
    FindsIff(s.word, s.control.expected);
  }

  lemma ControlStepKeepsInv(s: State, choice: Choice)
    requires Inv(s) && s.control != ControlIdle
    ensures InRange(s) && Inv(NextControl(s, choice))
  {
    hide Finds;
    hide Packed;
    if s.control.Publishing? || s.control.RetractSwap? || s.control.ResetSwap? {
      FindsIff(s.word, s.control.expected);
    }
  }

  lemma SwapKeepsInv(s: State, choice: Choice)
    requires Inv(s) && s.audio.ConsumeSwap?
    ensures InRange(s) && Inv(NextAudio(s, choice))
  {
    hide Finds;
    hide Packed;
    FindsIff(s.word, s.audio.expected);
  }

  lemma ReleaseKeepsInv(s: State, choice: Choice)
    requires Inv(s) && s.audio.ReleaseSwap?
    ensures InRange(s) && Inv(NextAudio(s, choice))
  {
    hide Finds;
    hide Packed;
    FindsIff(s.word, s.audio.expected);
  }

  lemma AudioStepKeepsInv(s: State, choice: Choice)
    requires Inv(s) && s.audio != AudioIdle
    ensures InRange(s) && Inv(NextAudio(s, choice))
  {
    if s.audio.ConsumeSwap? {
      SwapKeepsInv(s, choice);
    } else if s.audio.ReleaseSwap? {
      ReleaseKeepsInv(s, choice);
    } else {
      assert NextAudio(s, choice) == s.(audio := NextAudio(s, choice).audio);
    }
  }

  lemma StepKeepsInv(s: State, step: Step)
    requires Inv(s) && Enabled(s, step, false)
    ensures InRange(s) && Inv(Next(s, step))
  {
    InvImpliesInRange(s);
    match step
    case ControlStep(choice) => ControlStepKeepsInv(s, choice);
    case AudioStep(choice) => AudioStepKeepsInv(s, choice);
    case _ =>
  }

  // ---------------------------------------------------------------- whole runs

  /** An interleaving of the two threads, of any length. */
  ghost predicate IsInterleaving(states: seq<State>, steps: seq<Step>, free: bool) {
    && |states| == |steps| + 1 && Init(states[0])
    && forall i | 0 <= i < |steps| ::
         InRange(states[i]) && Enabled(states[i], steps[i], free) && states[i + 1] == Next(states[i], steps[i])
  }

  /** One in which resets come between blocks. */
  ghost predicate IsRun(states: seq<State>, steps: seq<Step>) {
    IsInterleaving(states, steps, false)
  }

  lemma {:induction false} RunKeepsInv(states: seq<State>, steps: seq<Step>)
    requires IsRun(states, steps)
    ensures Inv(states[|steps|])
  {
    if steps != [] {
      var last := |steps| - 1;
      RunKeepsInv(states[..|steps|], steps[..last]);
      StepKeepsInv(states[last], steps[last]);
    }
  }

  /** A graph is never prepared while the audio thread may touch it, as active or as previous. */
  lemma NeverPreparedInUse(states: seq<State>, steps: seq<Step>)
    requires IsRun(states, steps)
    ensures PreparesUnused(states[|steps|])
  {
    RunKeepsInv(states, steps);
  }

  ghost predicate PreparesUnused(s: State) {
    s.control.Preparing? || s.control.Publishing? ==>
      s.control.target !in Touched(s) && s.control.target != s.word.active && s.control.target != s.word.previous
  }

  /** This depends on where resets come: it holds of every interleaving if and only if they come between blocks. */
  lemma PreparesUnusedIff(free: bool)
    ensures (forall states: seq<State>, steps: seq<Step> ::
               IsInterleaving(states, steps, free) ==> PreparesUnused(states[|steps|])) <==> !free
  {
    hide PreparesUnused;
    if free {
      var states, steps := ResetUnderBlock();
    } else {
      forall states: seq<State>, steps: seq<Step> | IsInterleaving(states, steps, false)
        ensures PreparesUnused(states[|steps|])
      {
        NeverPreparedInUse(states, steps);
      }
    }
  }

  lemma Then(states: seq<State>, steps: seq<Step>, step: Step) returns (more: seq<State>, moreSteps: seq<Step>)
    requires IsInterleaving(states, steps, true) && InRange(states[|steps|]) && Enabled(states[|steps|], step, true)
    ensures moreSteps == steps + [step] && IsInterleaving(more, moreSteps, true)
    ensures more[|moreSteps|] == Next(states[|steps|], step)
  {
    hide Next;
    hide Enabled;
    hide InRange;
    more, moreSteps := states + [Next(states[|steps|], step)], steps + [step];
  }

  const FIRST := Graph(1, 48000)
  const SECOND := Graph(2, 48000)
  const THIRD := Graph(3, 48000)

  lemma PublishesTwo() returns (states: seq<State>, steps: seq<Step>)
    ensures IsInterleaving(states, steps, true)
    ensures states[|steps|] == State(Word(0, 1, NONE), [FIRST, SECOND], ControlIdle, AudioIdle, [1], false)
  {
    hide Packed;
    states, steps := [State(EMPTY, [FIRST, FIRST], ControlIdle, AudioIdle, [], false)], [];
    states, steps := Then(states, steps, BeginPrepareInitial(FIRST));
    states, steps := Then(states, steps, ControlStep(Go));
    states, steps := Then(states, steps, ControlStep(Go));
    states, steps := Then(states, steps, ControlStep(Go));
    assert states[|steps|] == State(Word(0, NONE, NONE), [FIRST, FIRST], ControlIdle, AudioIdle, [1], false);
    states, steps := Then(states, steps, BeginPreparePending(SECOND));
    states, steps := Then(states, steps, ControlStep(Go));
    states, steps := Then(states, steps, ControlStep(Go));
    states, steps := Then(states, steps, ControlStep(Go));
  }

  lemma SwapsTwo() returns (states: seq<State>, steps: seq<Step>)
    ensures IsInterleaving(states, steps, true)
    ensures states[|steps|]
         == State(Word(1, NONE, 0), [FIRST, SECOND], ControlIdle, Swapped(1, true, false), [1, 2], false)
  {
    hide Packed;
    states, steps := PublishesTwo();
    states, steps := Then(states, steps, BeginBlock);
    states, steps := Then(states, steps, AudioStep(Go));
    states, steps := Then(states, steps, AudioStep(Go));
  }

  lemma HoldsPrevious() returns (states: seq<State>, steps: seq<Step>)
    ensures IsInterleaving(states, steps, true)
    ensures states[|steps|]
         == State(Word(1, NONE, 0), [FIRST, SECOND], ControlIdle, Processing(1, 0), [1, 2], false)
  {
    hide Packed;
    states, steps := SwapsTwo();
    states, steps := Then(states, steps, AudioStep(Go));
    states, steps := Then(states, steps, AudioStep(Fail));
    states, steps := Then(states, steps, AudioStep(Go));
    states, steps := Then(states, steps, AudioStep(Go));
  }

  /** Two graphs are published and swapped in, so that a block holds the first as previous; a reset releases it under the
      block, and the next graph is prepared in its place. */
  lemma ResetUnderBlock() returns (states: seq<State>, steps: seq<Step>)
    ensures IsInterleaving(states, steps, true) && !PreparesUnused(states[|steps|])
  {
    hide Packed;
    states, steps := HoldsPrevious();
    states, steps := Then(states, steps, BeginReset);
    states, steps := Then(states, steps, ControlStep(Go));
    states, steps := Then(states, steps, ControlStep(Go));
    assert states[|steps|]
        == State(Word(1, NONE, NONE), [FIRST, SECOND], ControlIdle, Processing(1, 0), [1, 2], false);
    states, steps := Then(states, steps, BeginPreparePending(THIRD));
    states, steps := Then(states, steps, ControlStep(Go));
  }

  /** What the audio thread holds is what the word still says: nothing is released under it. */
  lemma HoldsWhatItLoaded(states: seq<State>, steps: seq<Step>)
    requires IsRun(states, steps)
    ensures var s := states[|steps|];
            && (Active(s.audio) != NONE ==> s.word.active == Active(s.audio) < GRAPHS)
            && (s.audio.Processing? ==> s.word.previous == s.audio.held)
            && (s.audio.MailboxPreviousAgain? ==> s.word.previous < GRAPHS)
  {
    RunKeepsInv(states, steps);
  }

  /** Pending and previous are never both set, and the two graphs are never the same one. */
  lemma SlotsStayApart(states: seq<State>, steps: seq<Step>)
    requires IsRun(states, steps)
    ensures var w := states[|steps|].word;
            && (w.pending == NONE || w.previous == NONE)
            && (w.pending != NONE ==> w.active != NONE && w.pending != w.active)
            && (w.previous != NONE ==> w.active != NONE && w.previous != w.active)
  {
    RunKeepsInv(states, steps);
  }

  /** Once preparation has started, the publishing compare-and-swap cannot fail. */
  lemma PublishNeverLost(states: seq<State>, steps: seq<Step>)
    requires IsRun(states, steps)
    ensures !states[|steps|].lostPublish
  {
    RunKeepsInv(states, steps);
  }

  /** Every swap moves to a strictly newer graph. */
  lemma GenerationsIncrease(states: seq<State>, steps: seq<Step>, i: nat, j: nat)
    requires IsRun(states, steps) && i < j < |states[|steps|].activated|
    ensures states[|steps|].activated[i] < states[|steps|].activated[j]
  {
    RunKeepsInv(states, steps);
  }

  // ---------------------------------------------------------------- undisturbed calls

  /** One step, or none where the thread is idle. */
  ghost function Do(s: State, step: Step): State {
    if InRange(s) && Enabled(s, step, true) then Next(s, step) else s
  }

  /** The first `n` steps of a thread, each compare-and-swap going through. */
  ghost function Ticks(s: State, step: Step, n: nat): State
    decreases n
  {
    if n == 0 then s else Ticks(Do(s, step), step, n - 1)
  }

  /** A whole block of the audio thread, at the end of which a fade is over; it takes at most thirteen steps. */
  ghost function Block(s: State): State {
    Ticks(Do(s, BeginBlock), AudioStep(Go), 13)
  }

  ghost function PrepareInitial(s: State, config: Graph): State {
    Ticks(Do(s, BeginPrepareInitial(config)), ControlStep(Go), 3)
  }

  ghost function PreparePending(s: State, config: Graph): State {
    Ticks(Do(s, BeginPreparePending(config)), ControlStep(Go), 3)
  }

  ghost function Retract(s: State): State {
    Ticks(Do(s, BeginRetract), ControlStep(Go), 2)
  }

  ghost function Reset(s: State): State {
    Ticks(Do(s, BeginReset), ControlStep(Go), 2)
  }

  lemma {:induction false} TicksAdd(s: State, step: Step, m: nat, n: nat)
    ensures Ticks(s, step, m + n) == Ticks(Ticks(s, step, m), step, n)
    decreases m
  {
    if m > 0 {
      hide Do;
      TicksAdd(Do(s, step), step, m - 1, n);
    }
  }

  lemma {:induction false} IdleTicks(s: State, n: nat)
    requires s.audio == AudioIdle
    ensures Ticks(s, AudioStep(Go), n) == s
  {
    if n > 0 {
      IdleTicks(s, n - 1);
    }
  }

  lemma {:induction false} IdleControl(s: State, n: nat)
    requires s.control == ControlIdle
    ensures Ticks(s, ControlStep(Go), n) == s
  {
    if n > 0 {
      IdleControl(s, n - 1);
    }
  }

  /** A tick counted. */
  lemma Tick(s: State, step: Step, n: nat)
    requires n > 0
    ensures Ticks(s, step, n) == Ticks(Do(s, step), step, n - 1)
  {
  }

  /** The first graph goes to slot 0 and is active at once, provided that nothing was. */
  lemma QuietInitial(s: State, config: Graph)
    requires Inv(s) && s.control == ControlIdle
    ensures PrepareInitial(s, config)
         == if s.word == EMPTY then s.(word := Word(0, NONE, NONE), graphs := s.graphs[0 := config], activated := [config.generation])
            else s
  {
    hide Packed;
    hide Finds;
    hide Ticks;
    FindsIff(s.word, s.word);
    var s1 := Do(s, BeginPrepareInitial(config));
    Tick(s1, ControlStep(Go), 3);
    var s2 := Do(s1, ControlStep(Go));
    if s.word != EMPTY {
      assert s2 == s;
      IdleControl(s2, 2);
    } else {
      var s3 := Do(s2, ControlStep(Go));
      var s4 := Do(s3, ControlStep(Go));
      Tick(s2, ControlStep(Go), 2);
      Tick(s3, ControlStep(Go), 1);
      IdleControl(s4, 0);
    }
  }

  /** The next graph goes to the other slot, exactly when one is active, none is pending or still held, and it is newer. */
  lemma QuietPending(s: State, config: Graph)
    requires Inv(s) && s.control == ControlIdle
    ensures PreparePending(s, config)
         == if s.word.active != NONE && s.word.pending == NONE && s.word.previous == NONE
               && config.generation > s.graphs[s.word.active].generation
            then s.(word := Word(s.word.active, 1 - s.word.active, NONE), graphs := s.graphs[1 - s.word.active := config])
            else s
  {
    hide Packed;
    hide Finds;
    hide Ticks;
    FindsIff(s.word, s.word);
    var s1 := Do(s, BeginPreparePending(config));
    Tick(s1, ControlStep(Go), 3);
    var s2 := Do(s1, ControlStep(Go));
    if s2.control == ControlIdle {
      assert s2 == s;
      IdleControl(s2, 2);
    } else {
      var s3 := Do(s2, ControlStep(Go));
      var s4 := Do(s3, ControlStep(Go));
      Tick(s2, ControlStep(Go), 2);
      Tick(s3, ControlStep(Go), 1);
      IdleControl(s4, 0);
    }
  }

  /** A retracted graph is no longer pending, and nothing else changes. */
  lemma QuietRetract(s: State)
    requires Inv(s) && s.control == ControlIdle
    ensures Retract(s) == s.(word := Word(s.word.active, NONE, s.word.previous))
  {
    hide Packed;
    hide Finds;
    hide Ticks;
    FindsIff(s.word, s.word);
    var s1 := Do(s, BeginRetract);
    var s2 := Do(s1, ControlStep(Go));
    var s3 := Do(s2, ControlStep(Go));
    Tick(s1, ControlStep(Go), 2);
    Tick(s2, ControlStep(Go), 1);
    IdleControl(s3, 0);
  }

  lemma QuietReset(s: State)
    requires Inv(s) && s.control == ControlIdle && s.audio == AudioIdle
    ensures Reset(s) == s.(word := Word(s.word.active, s.word.pending, NONE))
  {
    hide Packed;
    hide Finds;
    hide Ticks;
    FindsIff(s.word, s.word);
    var s1 := Do(s, BeginReset);
    var s2 := Do(s1, ControlStep(Go));
    var s3 := Do(s2, ControlStep(Go));
    Tick(s1, ControlStep(Go), 2);
    Tick(s2, ControlStep(Go), 1);
    IdleControl(s3, 0);
  }

  /** Two steps release the graph that a block still holds. */
  lemma Releases(s: State, active: nat, stage: Stage)
    requires Inv(s) && s.audio == ReleaseLoad(active, stage)
    ensures Ticks(s, AudioStep(Go), 2)
         == s.(word := Word(s.word.active, s.word.pending, NONE), audio := Resume(active, stage))
  {
    hide Packed;
    hide Finds;
    hide Ticks;
    FindsIff(s.word, s.word);
    var s1 := Do(s, AudioStep(Go));
    Tick(s, AudioStep(Go), 2);
    Tick(s1, AudioStep(Go), 1);
    var s2 := Do(s1, AudioStep(Go));
    assert Ticks(s2, AudioStep(Go), 0) == s2 by {
      NoTicks(s2);
    }
  }

  lemma NoTicks(s: State)
    ensures Ticks(s, AudioStep(Go), 0) == s
  {
  }

  /** Where the steps lead that touch no slot. */
  lemma Moves(s: State, active: nat)
    requires InRange(s)
    ensures s.audio == Mailbox(active) ==> Do(s, AudioStep(Go)) == s.(audio := MailboxPrevious(active))
    ensures s.audio == MailboxPrevious(active) ==>
              (Do(s, AudioStep(Go))
               == s.(audio := if s.word.previous != NONE then MailboxPreviousAgain(active) else MaybeReset(active)))
    ensures s.audio == MailboxPreviousAgain(active) ==> Do(s, AudioStep(Go)) == s.(audio := MaybeReset(active))
    ensures s.audio == MaybeReset(active) ==> Do(s, AudioStep(Go)) == s.(audio := LoadHeld(active))
    ensures s.audio == LoadHeld(active) ==> Do(s, AudioStep(Go)) == s.(audio := Processing(active, s.word.previous))
    ensures s.audio == Processing(active, s.word.previous) ==>
              (Do(s, AudioStep(Go))
               == s.(audio := if s.word.previous != NONE then ReleaseLoad(active, AtEnd) else AudioIdle))
  {
  }

  /** The end of a block: the graph it held is released. */
  lemma Finishes(s: State, active: nat)
    requires Inv(s) && s.audio == LoadHeld(active)
    ensures Ticks(s, AudioStep(Go), 4) == s.(word := Word(s.word.active, s.word.pending, NONE), audio := AudioIdle)
  {
    InvImpliesInRange(s);
    hide Ticks;
    hide Do;
    var s1 := s.(audio := Processing(active, s.word.previous));
    Moves(s, active);
    Moves(s1, active);
    Tick(s, AudioStep(Go), 4);
    Tick(s1, AudioStep(Go), 3);
    if s.word.previous == NONE {
      assert s.(word := Word(s.word.active, s.word.pending, NONE)) == s;
      IdleTicks(s.(audio := AudioIdle), 2);
    } else {
      AudioMoves(s, ReleaseLoad(active, AtEnd));
      hide Inv;
      Releases(s.(audio := ReleaseLoad(active, AtEnd)), active, AtEnd);
    }
  }

  /** From reading the parameters to the end of the block. */
  lemma Plays(s: State, active: nat, n: nat)
    requires Inv(s) && s.audio == Mailbox(active) && n >= 8
    ensures Ticks(s, AudioStep(Go), n) == s.(word := Word(s.word.active, s.word.pending, NONE), audio := AudioIdle)
  {
    InvImpliesInRange(s);
    hide Inv;
    hide Ticks;
    hide Do;
    var step := AudioStep(Go);
    var s1 := s.(audio := MailboxPrevious(active));
    var s2 := s.(audio := MailboxPreviousAgain(active));
    var s3 := s.(audio := MaybeReset(active));
    Moves(s, active);
    Moves(s1, active);
    Moves(s2, active);
    Moves(s3, active);
    Tick(s, step, n);
    Tick(s1, step, n - 1);
    var m := if s.word.previous != NONE then n - 3 else n - 2;
    if s.word.previous != NONE {
      Tick(s2, step, n - 2);
    }
    Tick(s3, step, m);
    PlaysOn(s, s.(audio := LoadHeld(active)), active, m - 1);
  }

  lemma PlaysOn(s: State, t: State, active: nat, n: nat)
    requires Inv(s) && s.audio == Mailbox(active) && t == s.(audio := LoadHeld(active)) && n >= 4
    ensures Ticks(t, AudioStep(Go), n) == s.(word := Word(s.word.active, s.word.pending, NONE), audio := AudioIdle)
  {
    AudioMoves(s, LoadHeld(active));
    hide Inv;
    hide Ticks;
    hide Do;
    Finishes(t, active);
    TicksAdd(t, AudioStep(Go), 4, n - 4);
    IdleTicks(Ticks(t, AudioStep(Go), 4), n - 4);
  }

  /** What a block finds pending it makes active, holding the graph it replaces. */
  function SwappedIn(w: Word): Word {
    if w.pending == NONE then w else Word(w.pending, NONE, w.active)
  }

  lemma Swaps(s: State)
    requires Inv(s) && s.audio == AudioIdle && !IsResetting(s.control)
    ensures var t := Ticks(Do(s, BeginBlock), AudioStep(Go), 2);
            && Inv(t) && t.audio.Swapped? && t.audio.active == SwappedIn(s.word).active
            && t.(audio := AudioIdle)
            == s.(word := SwappedIn(s.word),
                  activated := s.activated
                  + if s.word.pending == NONE then [] else [s.graphs[s.word.pending].generation])
  {
    var step := AudioStep(Go);
    var s1 := Do(s, BeginBlock);
    var s2 := Do(s1, step);
    Tick(s1, step, 2);
    Tick(s2, step, 1);
    NoTicks(Do(s2, step));
    SwapKeepsInv(s2, Go);
    hide Packed;
    hide Finds;
    hide Ticks;
    FindsIff(s.word, s.word);
    assert s.activated + [] == s.activated;
  }

  lemma AudioMoves(s: State, audio: Audio)
    requires Inv(s) && AudioOk(s.(audio := audio))
    ensures Inv(s.(audio := audio))
  {
  }

  lemma AfterRateChange(s: State, active: nat)
    requires Inv(s) && s.audio == ReleaseLoad(active, AfterSwap)
    ensures Ticks(s, AudioStep(Go), 10) == s.(word := Word(s.word.active, s.word.pending, NONE), audio := AudioIdle)
  {
    hide Ticks;
    Releases(s, active, AfterSwap);
    TicksAdd(s, AudioStep(Go), 2, 8);
    Plays(Ticks(s, AudioStep(Go), 2), active, 8);
  }

  /** The rest of the block, from the swap on. */
  lemma AfterSwaps(s: State)
    requires Inv(s) && s.audio.Swapped? && (s.audio.active == NONE ==> s.word == EMPTY)
    ensures Ticks(s, AudioStep(Go), 11) == s.(word := Word(s.word.active, s.word.pending, NONE), audio := AudioIdle)
  {
    var step := AudioStep(Go);
    Tick(s, step, 11);
    hide Ticks;
    var t := Do(s, step);
    assert t == s.(audio := t.audio);
    AudioMoves(s, t.audio);
    if s.audio.active == NONE {
      IdleTicks(t, 10);
    } else {
      hide Inv;
      hide Do;
      if t.audio.Mailbox? {
        Plays(t, s.audio.active, 10);
      } else {
        AfterRateChange(t, s.audio.active);
      }
    }
  }

  /** When the block comes to read its parameters, the graph it swapped out is still there to fade from exactly if it runs
      at the same rate. */
  lemma FadesIff(s: State)
    requires Inv(s) && s.audio == AudioIdle && !IsResetting(s.control) && s.word.pending != NONE
    ensures var before, after := s.graphs[s.word.active], s.graphs[s.word.pending];
            var alike := before.sampleRate == after.sampleRate;
            var t := Ticks(Do(s, BeginBlock), AudioStep(Go), if alike then 3 else 5);
            && t.audio == Mailbox(s.word.pending)
            && t.word == Word(s.word.pending, NONE, if alike then s.word.active else NONE)
  {
    var step := AudioStep(Go);
    var t := Ticks(Do(s, BeginBlock), step, 2);
    Swaps(s);
    SwapTellsRates(s);
    TicksAdd(Do(s, BeginBlock), step, 2, 1);
    TicksAdd(Do(s, BeginBlock), step, 2, 3);
    Tick(t, step, 3);
    Tick(t, step, 1);
    hide Ticks;
    NoTicks(Do(t, step));
    AudioMoves(t, Do(t, step).audio);
    if t.audio.rateChanged {
      Releases(Do(t, step), s.word.pending, AfterSwap);
    }
  }

  lemma SwapTellsRates(s: State)
    requires Inv(s) && s.audio == AudioIdle && !IsResetting(s.control) && s.word.pending != NONE
    ensures var t := Ticks(Do(s, BeginBlock), AudioStep(Go), 2);
            && t.audio.Swapped? && t.audio.changed
            && (t.audio.rateChanged <==> s.graphs[s.word.active].sampleRate != s.graphs[s.word.pending].sampleRate)
  {
    var step := AudioStep(Go);
    var s1 := Do(s, BeginBlock);
    var s2 := Do(s1, step);
    Tick(s1, step, 2);
    Tick(s2, step, 1);
    NoTicks(Do(s2, step));
    hide Packed;
    hide Finds;
    hide Ticks;
    FindsIff(s.word, s.word);
  }

  /** A block swaps in the graph that was pending, if any; where a fade ends in it none is held after. */
  lemma QuietBlock(s: State)
    requires Inv(s) && s.audio == AudioIdle && !IsResetting(s.control)
    ensures Block(s)
         == if s.word.pending == NONE then s.(word := Word(s.word.active, NONE, NONE))
            else s.(word := Word(s.word.pending, NONE, NONE),
                    activated := s.activated + [s.graphs[s.word.pending].generation])
  {
    hide Do;
    hide Ticks;
    Swaps(s);
    var t := Ticks(Do(s, BeginBlock), AudioStep(Go), 2);
    AfterSwaps(t);
    TicksAdd(Do(s, BeginBlock), AudioStep(Go), 2, 11);
    assert s.activated + [] == s.activated;
  }

  /** Graphs can be handed over for ever: a newer one prepared between two blocks is active after the next. */
  lemma HandsOver(s: State, config: Graph)
    requires Inv(s) && s.control == ControlIdle && s.audio == AudioIdle
    requires s.word.active != NONE && s.word.pending == NONE && config.generation > s.graphs[s.word.active].generation
    ensures var t := Block(PreparePending(Block(s), config));
            && t.word == Word(1 - s.word.active, NONE, NONE) && t.graphs == s.graphs[1 - s.word.active := config]
            && t.activated == s.activated + [config.generation]
            && Inv(t) && t.control == ControlIdle && t.audio == AudioIdle
  {
    hide Block;
    hide PreparePending;
    QuietBlock(s);
    var s1 := Block(s);
    QuietPending(s1, config);
    QuietBlock(PreparePending(s1, config));
  }
}
