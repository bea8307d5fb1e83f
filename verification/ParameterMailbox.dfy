/**
  The three-slot mailbox between one writing and one reading thread, as a machine whose steps are
  single atomic loads and stores and single-word copies. Atomics are sequentially consistent here.
*/
module ParameterMailbox {

  const SLOTS: nat := 3
  const NO_READER: int := -1

  datatype Publication = Publication(words: seq<int>, generation: nat)

  datatype Writer =
    | WriterIdle
    | LoadPublished(payload: seq<int>)
    | LoadReading(payload: seq<int>, published: int)
    | CopyIn(payload: seq<int>, target: int, copied: nat)
    | Stamp(payload: seq<int>, target: int)
    | StorePublished(payload: seq<int>, target: int)

  datatype Reader =
    | ReaderIdle
    | LoadIndex
    | Announce(index: int)
    | Recheck(index: int)
    | Retract
    | LoadGeneration(index: int)
    | CopyOut(index: int, generation: nat, copy: seq<int>)
    | Skip
    | Finish(generation: nat, copy: seq<int>)

  /** How a finished read call looked: what it returned and how many publications bracket it. */
  datatype Return = Return(result: Result, last: nat, atStart: nat, atCheck: nat, atEnd: nat, retries: nat)

  datatype Result = Taken(value: Publication) | NothingNew

  /**
    The shared words, the two threads, and history: completed publications, finished reads, and for
    the read under way the publication counts at its start, at its last index load and at its
    successful re-check. `filtered` readers skip generations they have seen (the telemetry reader
    does not).
  */
  datatype State = State(
    width: nat,
    filtered: bool,
    initial: Publication,
    published: int,
    reading: int,
    slots: seq<Publication>,
    nextGeneration: nat,
    writer: Writer,
    reader: Reader,
    last: nat,
    log: seq<Publication>,
    calls: seq<Return>,
    startCount: nat,
    loadCount: nat,
    checkCount: nat,
    retries: nat)

  datatype Step = BeginPublish(payload: seq<int>) | WriterStep | BeginConsume | ReaderStep

  ghost predicate Init(s: State) {
    && s.initial.generation == 0 && |s.initial.words| == s.width
    && s.published == 0 && s.reading == NO_READER
    && |s.slots| == SLOTS && s.slots[0] == s.initial
    && (forall i | 0 <= i < SLOTS :: |s.slots[i].words| == s.width)
    && s.nextGeneration == 0 && s.writer == WriterIdle && s.reader == ReaderIdle
    && s.log == [] && s.calls == [] && s.last == 0
    && s.startCount == s.loadCount == s.checkCount == s.retries == 0
  }

  /** The smallest slot index that is neither the published nor the announced one. */
  function FreeSlot(published: int, reading: int): (target: int)
    ensures 0 <= target < SLOTS && target != published && target != reading
  {
    if published != 0 && reading != 0 then 0
    else if published != 1 && reading != 1 then 1
    else 2
  }

  /** The source's search for that slot. */
  method FindFreeSlot(published: int, reading: int) returns (target: int)
    ensures target == FreeSlot(published, reading)
  {
    target := 0;
    while target == published || target == reading
      invariant 0 <= target <= FreeSlot(published, reading)
      decreases SLOTS - target
    {
      target := target + 1;
    }
  }

  ghost predicate Enabled(s: State, step: Step) {
    match step
    case BeginPublish(payload) => s.writer == WriterIdle && |payload| == s.width
    case WriterStep => s.writer != WriterIdle
    case BeginConsume => s.reader == ReaderIdle
    case ReaderStep => s.reader != ReaderIdle
  }

  /** One atomic access by one of the two threads. */
  ghost function Next(s: State, step: Step): State
    requires InRange(s) && Enabled(s, step)
  {
    match step
    case BeginPublish(payload) => s.(writer := LoadPublished(payload))
    case WriterStep => NextWriter(s)
    case BeginConsume => s.(reader := LoadIndex, startCount := |s.log|, retries := 0)
    case ReaderStep => NextReader(s)
  }

  /** Slot indices held in local variables are usable. */
  ghost predicate InRange(s: State) {
    && |s.slots| == SLOTS
    && (s.writer.CopyIn? ==>
          && 0 <= s.writer.target < SLOTS && s.writer.copied <= |s.writer.payload| == s.width
          && |s.slots[s.writer.target].words| == s.width)
    && (s.writer.Stamp? || s.writer.StorePublished? ==> 0 <= s.writer.target < SLOTS)
    && (s.reader.LoadGeneration? || s.reader.CopyOut? ==>
          0 <= s.reader.index < SLOTS && |s.slots[s.reader.index].words| == s.width)
    && (s.reader.CopyOut? ==> |s.reader.copy| <= s.width)
  }

  ghost function NextWriter(s: State): State
    requires InRange(s) && s.writer != WriterIdle
  {
    match s.writer
    case LoadPublished(payload) => s.(writer := LoadReading(payload, s.published))
    case LoadReading(payload, published) => s.(writer := CopyIn(payload, FreeSlot(published, s.reading), 0))
    case CopyIn(payload, target, copied) =>
      if copied < |payload| then
        var slot := s.slots[target];
        s.(slots := s.slots[target := slot.(words := slot.words[copied := payload[copied]])],
           writer := CopyIn(payload, target, copied + 1))
      else s.(writer := Stamp(payload, target))
    case Stamp(payload, target) =>
      s.(nextGeneration := s.nextGeneration + 1,
         slots := s.slots[target := s.slots[target].(generation := s.nextGeneration + 1)],
         writer := StorePublished(payload, target))
    case StorePublished(payload, target) =>
      s.(published := target, writer := WriterIdle, log := s.log + [Publication(payload, s.nextGeneration)])
  }

  ghost function NextReader(s: State): State
    requires InRange(s) && s.reader != ReaderIdle
  {
    match s.reader
    case LoadIndex => s.(reader := Announce(s.published), loadCount := |s.log|)
    case Announce(index) => s.(reading := index, reader := Recheck(index))
    case Recheck(index) =>
      if index == s.published then s.(reader := LoadGeneration(index), checkCount := |s.log|)
      else s.(reader := Retract, retries := s.retries + 1)
    case Retract => s.(reading := NO_READER, reader := LoadIndex)
    case LoadGeneration(index) =>
      var generation := s.slots[index].generation;
      if s.filtered && generation <= s.last then s.(reader := Skip)
      else s.(reader := CopyOut(index, generation, []))
    case CopyOut(index, generation, copy) =>
      if |copy| < s.width then
        s.(reader := CopyOut(index, generation, copy + [s.slots[index].words[|copy|]]))
      else s.(reader := Finish(generation, copy))
    case Skip =>
      s.(reading := NO_READER, reader := ReaderIdle,
         calls := s.calls + [Return(NothingNew, s.last, s.startCount, s.checkCount, |s.log|, s.retries)])
    case Finish(generation, copy) =>
      s.(reading := NO_READER, reader := ReaderIdle, last := generation,
         calls := s.calls + [Return(Taken(Publication(copy, generation)), s.last,
                                        s.startCount, s.checkCount, |s.log|, s.retries)])
  }

  // ---------------------------------------------------------------- the invariant

  /** The newest publication once `count` publications have completed. */
  function Newest(s: State, count: nat): Publication
    requires count <= |s.log|
  {
    if count == 0 then s.initial else s.log[count - 1]
  }

  ghost predicate LogOk(s: State) {
    && |s.slots| == SLOTS && (forall i | 0 <= i < SLOTS :: |s.slots[i].words| == s.width)
    && s.initial.generation == 0 && |s.initial.words| == s.width
    && (forall i | 0 <= i < |s.log| :: s.log[i].generation == i + 1 && |s.log[i].words| == s.width)
    && 0 <= s.published < SLOTS && s.slots[s.published] == Newest(s, |s.log|)
    && s.nextGeneration == if s.writer.StorePublished? then |s.log| + 1 else |s.log|
  }

  /** The writer never works on the published slot, and what it has copied so far is in place. */
  ghost predicate WriterOk(s: State)
    requires |s.slots| == SLOTS
  {
    match s.writer
    case WriterIdle => true
    case LoadPublished(payload) => |payload| == s.width
    case LoadReading(payload, published) => |payload| == s.width && published == s.published
    case CopyIn(payload, target, copied) =>
      && |payload| == s.width && 0 <= target < SLOTS && target != s.published
      && copied <= s.width == |s.slots[target].words|
      && s.slots[target].words[..copied] == payload[..copied]
    case Stamp(payload, target) =>
      |payload| == s.width && 0 <= target < SLOTS && target != s.published && s.slots[target].words == payload
    case StorePublished(payload, target) =>
      && |payload| == s.width && 0 <= target < SLOTS && target != s.published
      && s.slots[target] == Publication(payload, s.nextGeneration)
  }

  predicate Writes(w: Writer, index: int) {
    (w.CopyIn? || w.Stamp? || w.StorePublished?) && w.target == index
  }

  /** Slot `index` is safe to read: announced, not being written, still what the re-check saw. */
  ghost predicate Guarded(s: State, index: int)
    requires |s.slots| == SLOTS
  {
    && 0 <= index < SLOTS && s.reading == index && !Writes(s.writer, index)
    && s.checkCount <= |s.log| && s.slots[index] == Newest(s, s.checkCount)
  }

  ghost predicate ReaderOk(s: State)
    requires |s.slots| == SLOTS
  {
    && EndOf(s, |s.calls|) <= |s.log|
    && (s.reader != ReaderIdle ==> EndOf(s, |s.calls|) <= s.startCount <= |s.log|)
    && match s.reader
       case ReaderIdle => s.reading == NO_READER
       case LoadIndex => s.reading == NO_READER && s.retries <= |s.log| - s.startCount
       case Announce(index) => s.reading == NO_READER && Loaded(s, index)
       case Recheck(index) => s.reading == index && Loaded(s, index)
       case Retract => s.retries <= |s.log| - s.startCount
       case LoadGeneration(index) => Guarded(s, index) && Checked(s)
       case CopyOut(index, generation, copy) =>
         && Guarded(s, index) && Checked(s)
         && generation == Newest(s, s.checkCount).generation && (s.filtered ==> generation > s.last)
         && |copy| <= s.width == |Newest(s, s.checkCount).words| && copy == Newest(s, s.checkCount).words[..|copy|]
       case Skip => Checked(s) && s.filtered && Newest(s, s.checkCount).generation <= s.last
       case Finish(generation, copy) =>
         && Checked(s) && Newest(s, s.checkCount) == Publication(copy, generation)
         && (s.filtered ==> generation > s.last)
  }

  /** While the index is held but unchecked: a changed index means a publication in between. */
  ghost predicate Loaded(s: State, index: int) {
    && 0 <= index < SLOTS
    && s.startCount <= s.loadCount <= |s.log| && s.retries <= s.loadCount - s.startCount
    && (s.loadCount == |s.log| ==> s.published == index)
  }

  ghost predicate Checked(s: State) {
    s.startCount <= s.checkCount <= |s.log| && s.retries <= s.checkCount - s.startCount
  }

  /** A finished read took the newest publication of one moment between its start and its end. */
  ghost predicate ReturnOk(s: State, r: Return) {
    && r.atStart <= r.atCheck <= r.atEnd <= |s.log|
    && r.retries <= r.atCheck - r.atStart
    && match r.result
       case Taken(value) => value == Newest(s, r.atCheck) && (s.filtered ==> value.generation > r.last)
       case NothingNew => s.filtered && Newest(s, r.atCheck).generation <= r.last
  }

  /** Read calls are one after another, each starting from the generation the one before left. */
  ghost predicate ReturnsOk(s: State) {
    && (forall i: nat | i < |s.calls| :: CallOk(s, i))
    && s.last == LastAfter(s, |s.calls|)
  }

  ghost predicate CallOk(s: State, i: nat)
    requires i < |s.calls|
  {
    ReturnOk(s, s.calls[i]) && s.calls[i].last == LastAfter(s, i) && EndOf(s, i) <= s.calls[i].atStart
  }

  function After(r: Return): nat {
    match r.result
    case Taken(value) => value.generation
    case NothingNew => r.last
  }

  /** Publications completed when the `count`-th call ended. */
  function EndOf(s: State, count: nat): nat
    requires count <= |s.calls|
  {
    if count == 0 then 0 else s.calls[count - 1].atEnd
  }

  function LastAfter(s: State, count: nat): nat
    requires count <= |s.calls|
  {
    if count == 0 then 0 else After(s.calls[count - 1])
  }

  ghost predicate Inv(s: State) {
    LogOk(s) && WriterOk(s) && ReaderOk(s) && ReturnsOk(s)
  }

  lemma InitImpliesInv(s: State)
    requires Init(s)
    ensures Inv(s)
  {
  }

  lemma InvImpliesInRange(s: State)
    requires Inv(s)
    ensures InRange(s)
  {
  }

  /** Finished reads stay right as the log grows. */
  lemma CallsStayOk(s: State, t: State)
    requires ReturnsOk(s) && s.log <= t.log && s.calls == t.calls && s.last == t.last
    requires s.initial == t.initial && s.filtered == t.filtered
    ensures ReturnsOk(t)
  {
    forall i: nat | i < |t.calls|
      ensures CallOk(t, i)
    {
      assert CallOk(s, i);
    }
  }

  lemma CallReturns(s: State, t: State, r: Return)
    requires ReturnsOk(s) && s.log == t.log && t.calls == s.calls + [r] && r.last == s.last
    requires s.initial == t.initial && s.filtered == t.filtered && t.last == After(r) && ReturnOk(s, r)
    requires EndOf(s, |s.calls|) <= r.atStart
    ensures ReturnsOk(t)
  {
    forall i: nat | i < |t.calls|
      ensures CallOk(t, i)
    {
      if i < |s.calls| {
        assert CallOk(s, i);
      }
    }
  }

  /** The writer's private steps and its copying leave the published slot and the reader alone. */
  lemma WriterChooses(s: State)
    requires Inv(s) && (s.writer.LoadPublished? || s.writer.LoadReading?)
    ensures InRange(s) && Inv(NextWriter(s))
  {
    hide ReturnsOk;
    InvImpliesInRange(s);
    CallsStayOk(s, NextWriter(s));
  }

  lemma WriterCopiesWord(s: State)
    requires Inv(s) && s.writer.CopyIn? && s.writer.copied < s.width
    ensures InRange(s) && Inv(NextWriter(s))
  {
    hide ReturnsOk;
    InvImpliesInRange(s);
    var t := NextWriter(s);
    CallsStayOk(s, t);
    var target, copied := s.writer.target, s.writer.copied;
    assert t.slots[target].words[..copied + 1] == s.slots[target].words[..copied] + [s.writer.payload[copied]];
    assert s.writer.payload[..copied + 1] == s.writer.payload[..copied] + [s.writer.payload[copied]];
  }

  lemma WriterEndsCopy(s: State)
    requires Inv(s) && s.writer.CopyIn? && s.writer.copied == s.width
    ensures InRange(s) && Inv(NextWriter(s))
  {
    hide ReturnsOk;
    InvImpliesInRange(s);
    CallsStayOk(s, NextWriter(s));
    var words := s.slots[s.writer.target].words;
    assert words == words[..s.width];
  }

  lemma WriterStamps(s: State)
    requires Inv(s) && s.writer.Stamp?
    ensures InRange(s) && Inv(NextWriter(s))
  {
    hide ReturnsOk;
    InvImpliesInRange(s);
    CallsStayOk(s, NextWriter(s));
  }

  lemma WriterPublishes(s: State)
    requires Inv(s) && s.writer.StorePublished?
    ensures InRange(s) && Inv(NextWriter(s))
  {
    hide ReturnsOk;
    InvImpliesInRange(s);
    CallsStayOk(s, NextWriter(s));
  }

  lemma ReaderAcquires(s: State)
    requires Inv(s) && (s.reader.LoadIndex? || s.reader.Announce? || s.reader.Retract?)
    ensures InRange(s) && Inv(NextReader(s))
  {
    hide ReturnsOk;
    InvImpliesInRange(s);
    CallsStayOk(s, NextReader(s));
  }

  lemma ReaderRechecks(s: State)
    requires Inv(s) && s.reader.Recheck?
    ensures InRange(s) && Inv(NextReader(s))
  {
    hide ReturnsOk;
    InvImpliesInRange(s);
    CallsStayOk(s, NextReader(s));
  }

  lemma ReaderDecides(s: State)
    requires Inv(s) && s.reader.LoadGeneration?
    ensures InRange(s) && Inv(NextReader(s))
  {
    hide ReturnsOk;
    InvImpliesInRange(s);
    CallsStayOk(s, NextReader(s));
    NewestWidth(s, s.checkCount);
  }

  lemma ReaderCopies(s: State)
    requires Inv(s) && s.reader.CopyOut?
    ensures InRange(s) && Inv(NextReader(s))
  {
    hide ReturnsOk;
    InvImpliesInRange(s);
    CallsStayOk(s, NextReader(s));
    var copy, words := s.reader.copy, Newest(s, s.checkCount).words;
    if |copy| < s.width {
      assert words[..|copy| + 1] == words[..|copy|] + [words[|copy|]];
    } else {
      assert words == words[..|copy|];
    }
  }

  lemma NewestWidth(s: State, count: nat)
    requires LogOk(s) && count <= |s.log|
    ensures |Newest(s, count).words| == s.width
  {
  }

  lemma ReaderReturns(s: State)
    requires Inv(s) && (s.reader.Skip? || s.reader.Finish?)
    ensures InRange(s) && Inv(NextReader(s))
  {
    hide ReturnsOk;
    InvImpliesInRange(s);
    var t := NextReader(s);
    CallReturns(s, t, t.calls[|s.calls|]);
  }

  lemma BeginKeepsInv(s: State, step: Step)
    requires Inv(s) && Enabled(s, step) && (step.BeginPublish? || step.BeginConsume?)
    ensures InRange(s) && Inv(Next(s, step))
  {
    hide ReturnsOk;
    InvImpliesInRange(s);
    CallsStayOk(s, Next(s, step));
  }

  /** Every atomic step of either thread keeps the invariant. */
  lemma StepKeepsInv(s: State, step: Step)
    requires Inv(s) && Enabled(s, step)
    ensures InRange(s) && Inv(Next(s, step))
  {
    InvImpliesInRange(s);
    hide Inv;
    match step
    case BeginPublish(_) => BeginKeepsInv(s, step);
    case BeginConsume => BeginKeepsInv(s, step);
    case WriterStep =>
      if s.writer.Stamp? {
        WriterStamps(s);
      } else if s.writer.StorePublished? {
        WriterPublishes(s);
      } else if s.writer.CopyIn? {
        if s.writer.copied < s.width {
          WriterCopiesWord(s);
        } else {
          WriterEndsCopy(s);
        }
      } else {
        WriterChooses(s);
      }
    case ReaderStep =>
      if s.reader.Skip? || s.reader.Finish? {
        ReaderReturns(s);
      } else if s.reader.LoadGeneration? {
        ReaderDecides(s);
      } else if s.reader.CopyOut? {
        ReaderCopies(s);
      } else if s.reader.Recheck? {
        ReaderRechecks(s);
      } else {
        ReaderAcquires(s);
      }
  }

  // ---------------------------------------------------------------- whole runs

  /** An interleaving of the two threads, of any length. */
  ghost predicate IsRun(states: seq<State>, steps: seq<Step>) {
    && |states| == |steps| + 1 && Init(states[0])
    && forall i | 0 <= i < |steps| ::
         InRange(states[i]) && Enabled(states[i], steps[i]) && states[i + 1] == Next(states[i], steps[i])
  }

  lemma {:induction false} RunKeepsInv(states: seq<State>, steps: seq<Step>)
    requires IsRun(states, steps)
    ensures Inv(states[|steps|])
  {
    if steps == [] {
      InitImpliesInv(states[0]);
    } else {
      var last := |steps| - 1;
      RunKeepsInv(states[..|steps|], steps[..last]);
      StepKeepsInv(states[last], steps[last]);
    }
  }

  /** No torn reads: the slot being copied out is never one the writer is working on. */
  lemma NeverTorn(states: seq<State>, steps: seq<Step>)
    requires IsRun(states, steps)
    ensures var s := states[|steps|];
            s.reader.LoadGeneration? || s.reader.CopyOut? ==> !Writes(s.writer, s.reader.index)
  {
    RunKeepsInv(states, steps);
  }

  /**
    Linearizability. Publications take effect at the store of the published index, a read at its
    successful re-check: every read that took something took exactly the newest publication of that
    moment, which lies between its start and its end, and calls do not overlap. A read that reports
    nothing new saw nothing newer than what it had. Each retry is paid for by a publication made
    during the call.
  */
  lemma Linearizable(states: seq<State>, steps: seq<Step>, i: nat)
    requires IsRun(states, steps) && i < |states[|steps|].calls|
    ensures var s := states[|steps|];
            var r := s.calls[i];
            && r.atStart <= r.atCheck <= r.atEnd <= |s.log|
            && (i > 0 ==> s.calls[i - 1].atEnd <= r.atStart)
            && r.retries <= r.atEnd - r.atStart
            && match r.result
               case Taken(value) => value == Newest(s, r.atCheck) && value.generation == r.atCheck
               case NothingNew => r.atCheck <= r.last
  {
    RunKeepsInv(states, steps);
    assert CallOk(states[|steps|], i);
  }

  /** A filtering reader never takes the same or an older publication again. */
  lemma {:induction false} TakenIncrease(states: seq<State>, steps: seq<Step>, i: nat, j: nat)
    requires IsRun(states, steps) && states[|steps|].filtered
    requires i < j < |states[|steps|].calls|
    requires states[|steps|].calls[i].result.Taken? && states[|steps|].calls[j].result.Taken?
    ensures states[|steps|].calls[i].result.value.generation < states[|steps|].calls[j].result.value.generation
  {
    var s := states[|steps|];
    RunKeepsInv(states, steps);
    assert CallOk(s, j);
    LastGrows(s, i + 1, j);
  }

  lemma {:induction false} LastGrows(s: State, i: nat, j: nat)
    requires Inv(s) && s.filtered && i <= j <= |s.calls|
    ensures LastAfter(s, i) <= LastAfter(s, j)
  {
    if i < j {
      LastGrows(s, i, j - 1);
      assert CallOk(s, j - 1);
    }
  }

  /** The writer never waits: a usable slot always exists, and no reader is copying from it. */
  lemma WriterAlwaysFindsASlot(states: seq<State>, steps: seq<Step>)
    requires IsRun(states, steps)
    ensures var s := states[|steps|];
            s.writer.LoadReading? ==>
              var target := FreeSlot(s.writer.published, s.reading);
              && 0 <= target < SLOTS && target != s.published
              && (s.reader.LoadGeneration? || s.reader.CopyOut? ==> target != s.reader.index)
  {
    RunKeepsInv(states, steps);
  }

  // ---------------------------------------------------------------- undisturbed calls

  /** A stretch of a run. */
  ghost predicate IsStretch(states: seq<State>, steps: seq<Step>) {
    && |states| == |steps| + 1
    && forall i | 0 <= i < |steps| ::
         InRange(states[i]) && Enabled(states[i], steps[i]) && states[i + 1] == Next(states[i], steps[i])
  }

  lemma Then(states: seq<State>, steps: seq<Step>, step: Step) returns (more: seq<State>, moreSteps: seq<Step>)
    requires IsStretch(states, steps) && Inv(states[|steps|]) && Enabled(states[|steps|], step)
    ensures moreSteps == steps + [step] && IsStretch(more, moreSteps) && more[0] == states[0]
    ensures InRange(states[|steps|]) && more[|moreSteps|] == Next(states[|steps|], step) && Inv(more[|moreSteps|])
  {
    InvImpliesInRange(states[|steps|]);
    StepKeepsInv(states[|steps|], step);
    hide Inv;
    hide Next;
    hide Enabled;
    hide InRange;
    more, moreSteps := states + [Next(states[|steps|], step)], steps + [step];
  }

  /** The reader's copy goes on until it has every word. */
  lemma {:induction false} CopiesOut(states: seq<State>, steps: seq<Step>) returns (more: seq<State>, moreSteps: seq<Step>)
    requires IsStretch(states, steps) && Inv(states[|steps|]) && states[|steps|].reader.CopyOut?
    ensures IsStretch(more, moreSteps) && more[0] == states[0] && Inv(more[|moreSteps|])
    ensures var s, t := states[|steps|], more[|moreSteps|];
            && t.reader.Finish? && t.reader.generation == s.reader.generation
            && t == s.(reader := t.reader)
    decreases states[|steps|].width - |states[|steps|].reader.copy|
  {
    hide ReturnsOk;
    more, moreSteps := Then(states, steps, ReaderStep);
    if more[|moreSteps|].reader.CopyOut? {
      more, moreSteps := CopiesOut(more, moreSteps);
    }
  }

  /** The writer's likewise. */
  lemma {:induction false} CopiesIn(states: seq<State>, steps: seq<Step>) returns (more: seq<State>, moreSteps: seq<Step>)
    requires IsStretch(states, steps) && Inv(states[|steps|]) && states[|steps|].writer.CopyIn?
    ensures IsStretch(more, moreSteps) && more[0] == states[0] && Inv(more[|moreSteps|])
    ensures var s, t := states[|steps|], more[|moreSteps|];
            && t.writer == Stamp(s.writer.payload, s.writer.target)
            && t == s.(writer := t.writer, slots := t.slots)
    decreases states[|steps|].width - states[|steps|].writer.copied
  {
    hide ReturnsOk;
    more, moreSteps := Then(states, steps, WriterStep);
    if more[|moreSteps|].writer.CopyIn? {
      more, moreSteps := CopiesIn(more, moreSteps);
    }
  }

  /** A publication that runs by itself ends, and is then the newest, one generation on. */
  lemma QuietPublish(states: seq<State>, steps: seq<Step>, payload: seq<int>)
    returns (more: seq<State>, moreSteps: seq<Step>)
    requires IsStretch(states, steps) && Inv(states[|steps|])
    requires states[|steps|].writer == WriterIdle && |payload| == states[|steps|].width
    ensures IsStretch(more, moreSteps) && more[0] == states[0] && Inv(more[|moreSteps|])
    ensures var s, t := states[|steps|], more[|moreSteps|];
            && t.writer == WriterIdle && t.log == s.log + [Publication(payload, |s.log| + 1)]
            && t.reader == s.reader && t.last == s.last && t.calls == s.calls && t.filtered == s.filtered
  {
    var s := states[|steps|];
    IdleGeneration(s);
    hide Inv;
    hide InRange;
    more, moreSteps := Then(states, steps, BeginPublish(payload));
    more, moreSteps := Then(more, moreSteps, WriterStep);
    more, moreSteps := Then(more, moreSteps, WriterStep);
    more, moreSteps := CopiesIn(more, moreSteps);
    more, moreSteps := Then(more, moreSteps, WriterStep);
    more, moreSteps := Then(more, moreSteps, WriterStep);
  }

  lemma IdleGeneration(s: State)
    requires Inv(s) && s.writer == WriterIdle
    ensures s.nextGeneration == |s.log|
  {
    hide ReturnsOk;
  }

  /** A read that runs by itself ends. It takes the newest publication, unless it filters and has that one already. */
  lemma QuietRead(states: seq<State>, steps: seq<Step>) returns (more: seq<State>, moreSteps: seq<Step>)
    requires IsStretch(states, steps) && Inv(states[|steps|]) && states[|steps|].reader == ReaderIdle
    ensures IsStretch(more, moreSteps) && more[0] == states[0] && Inv(more[|moreSteps|])
    ensures var s, t := states[|steps|], more[|moreSteps|];
            && t.reader == ReaderIdle && t.log == s.log && |t.calls| == |s.calls| + 1
            && t.calls[|s.calls|].result
            == if s.filtered && |s.log| <= s.last then NothingNew else Taken(Newest(s, |s.log|))
  {
    var s := states[|steps|];
    more, moreSteps := ReadsUpToCopy(states, steps);
    if more[|moreSteps|].reader.CopyOut? {
      more, moreSteps := CopiesOut(more, moreSteps);
      FinishHasNewest(more[|moreSteps|]);
    }
    hide Inv;
    hide InRange;
    more, moreSteps := Then(more, moreSteps, ReaderStep);
  }

  lemma ReadsUpToCopy(states: seq<State>, steps: seq<Step>) returns (more: seq<State>, moreSteps: seq<Step>)
    requires IsStretch(states, steps) && Inv(states[|steps|]) && states[|steps|].reader == ReaderIdle
    ensures IsStretch(more, moreSteps) && more[0] == states[0] && Inv(more[|moreSteps|])
    ensures var s, t := states[|steps|], more[|moreSteps|];
            && t == s.(reader := t.reader, reading := t.reading, startCount := |s.log|, loadCount := |s.log|,
                       checkCount := |s.log|, retries := 0)
            && if s.filtered && |s.log| <= s.last then t.reader == Skip else t.reader.CopyOut?
  {
    var s := states[|steps|];
    PublishedGeneration(s);
    hide Inv;
    hide InRange;
    more, moreSteps := Then(states, steps, BeginConsume);
    more, moreSteps := Then(more, moreSteps, ReaderStep);
    more, moreSteps := Then(more, moreSteps, ReaderStep);
    more, moreSteps := Then(more, moreSteps, ReaderStep);
    more, moreSteps := Then(more, moreSteps, ReaderStep);
  }

  lemma PublishedGeneration(s: State)
    requires Inv(s)
    ensures 0 <= s.published < SLOTS == |s.slots| && s.slots[s.published].generation == |s.log|
  {
    hide ReturnsOk;
  }

  lemma FinishHasNewest(s: State)
    requires Inv(s) && s.reader.Finish?
    ensures s.checkCount <= |s.log| && Publication(s.reader.copy, s.reader.generation) == Newest(s, s.checkCount)
  {
    hide ReturnsOk;
  }

  /** From any moment of any run at which neither thread is in a call: publishing and then reading takes what was
      published. */
  lemma PublishedIsRead(states: seq<State>, steps: seq<Step>, payload: seq<int>)
    returns (more: seq<State>, moreSteps: seq<Step>)
    requires IsRun(states, steps) && |payload| == states[|steps|].width
    requires states[|steps|].writer == WriterIdle && states[|steps|].reader == ReaderIdle
    ensures IsRun(more, moreSteps)
    ensures var s, t := states[|steps|], more[|moreSteps|];
            && |t.calls| == |s.calls| + 1 && |t.log| == |s.log| + 1
            && t.calls[|s.calls|].result == Taken(Publication(payload, |t.log|))
  {
    var s := states[|steps|];
    RunKeepsInv(states, steps);
    LastIsKnown(s);
    hide Inv;
    hide InRange;
    more, moreSteps := QuietPublish(states, steps, payload);
    more, moreSteps := QuietRead(more, moreSteps);
  }

  lemma LastIsKnown(s: State)
    requires Inv(s)
    ensures s.last <= |s.log|
  {
    if s.calls != [] {
      assert CallOk(s, |s.calls| - 1);
      LastIsLogged(s, |s.calls|);
    }
  }

  lemma {:induction false} LastIsLogged(s: State, count: nat)
    requires Inv(s) && count <= |s.calls|
    ensures LastAfter(s, count) <= |s.log|
  {
    if count > 0 {
      LastIsLogged(s, count - 1);
      assert CallOk(s, count - 1);
    }
  }
}
