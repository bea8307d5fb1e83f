/** The daemon's view of the driver's contexts, kept from events and reconciled by rescans. */
module SessionRegistries {
  import opened Bytes

  datatype EventType =
    | DRIVER_HELLO | CONTEXT_CREATED | CONTEXT_CONFIGURED | CONTEXT_ENABLED | CONTEXT_DISABLED | CONTEXT_RELEASED
    | RESOURCE_GENERATION_CHANGED | TELEMETRY | RESCAN_RESPONSE | SNAPSHOT_APPLIED_ACK | SNAPSHOT_APPLIED_NACK

  datatype ContextState = CREATED | CONFIGURED | ACTIVE | INACTIVE

  datatype Observations = Observations(
    audioSessionId: U32,
    ioId: U32,
    sampleRate: U32,
    channelMask: U32,
    resourceGeneration: U64,
    graphGeneration: U64,
    bypassReason: U32)

  datatype Event = Event(
    kind: EventType,
    bootId: U64,
    sequence: U64,
    contextInstanceId: U64,
    enabled: bool,
    observed: Observations)

  datatype Key = Key(bootId: U64, contextInstanceId: U64)

  datatype Entry = Entry(
    state: ContextState,
    observed: Observations,
    lastSequence: U64,
    createdSequence: U64,
    stale: bool)

  datatype ApplyResult = APPLIED | APPLIED_WITH_GAP | DUPLICATE | IGNORED

  /** The registry's fields. */
  datatype Registry = Registry(
    contexts: map<Key, Entry>,
    highestSequence: U64,
    rescanStartedSequence: U64,
    rescanNeeded: bool,
    contextGeneration: U64,
    newestCreatedSequence: U64)

  const NOTHING_OBSERVED := Observations(0, 0, 0, 0, 0, 0, 0)
  const EMPTY := Registry(map[], 0, 0, false, 0, 0)

  function Successor(n: U64): U64 {
    (n + 1) % 0x1_0000_0000_0000_0000
  }

  predicate IsLifecycleEvent(kind: EventType) {
    !(kind.DRIVER_HELLO? || kind.SNAPSHOT_APPLIED_ACK? || kind.SNAPSHOT_APPLIED_NACK?)
  }

  predicate CreatesContext(kind: EventType) {
    kind.CONTEXT_CREATED? || kind.RESCAN_RESPONSE?
  }

  /** Context ids start at 1, so a replay for context 0 ends the rescan. */
  predicate IsTerminator(e: Event) {
    e.kind.RESCAN_RESPONSE? && e.contextInstanceId == 0
  }

  function KeyOf(e: Event): Key {
    Key(e.bootId, e.contextInstanceId)
  }

  function Higher(highest: U64, sequence: U64): U64 {
    if sequence > highest then sequence else highest
  }

  /** A live event that skips sequence numbers. */
  predicate IsGap(r: Registry, e: Event) {
    e.sequence != 0 && r.highestSequence != 0 && e.sequence > Successor(r.highestSequence) && !e.kind.RESCAN_RESPONSE?
  }

  function Merged(before: Observations, seen: Observations): Observations {
    seen.(sampleRate := if seen.sampleRate != 0 then seen.sampleRate else before.sampleRate,
          channelMask := if seen.channelMask != 0 then seen.channelMask else before.channelMask)
  }

  function NextState(state: ContextState, e: Event): ContextState {
    match e.kind
    case CONTEXT_CREATED => CREATED
    case CONTEXT_CONFIGURED => CONFIGURED
    case CONTEXT_ENABLED => ACTIVE
    case CONTEXT_DISABLED => INACTIVE
    case RESCAN_RESPONSE => if e.enabled then ACTIVE else INACTIVE
    case _ => state
  }

  /** The entry after an event about it. */
  function Updated(entry: Entry, e: Event): Entry {
    Entry(NextState(entry.state, e), Merged(entry.observed, e.observed), e.sequence, entry.createdSequence,
          entry.stale && !e.kind.RESCAN_RESPONSE?)
  }

  function Fresh(e: Event): Entry {
    Entry(CREATED, NOTHING_OBSERVED, 0, e.sequence, false)
  }

  function MarkedStale(contexts: map<Key, Entry>, sequence: U64): map<Key, Entry> {
    map k | k in contexts :: if contexts[k].lastSequence <= sequence then contexts[k].(stale := true) else contexts[k]
  }

  predicate IsGone(entry: Entry, sequence: U64) {
    entry.stale && entry.lastSequence <= sequence
  }

  function Confirmed(contexts: map<Key, Entry>, sequence: U64): map<Key, Entry> {
    map k | k in contexts && !IsGone(contexts[k], sequence) :: contexts[k].(stale := false)
  }

  function AfterMarkStale(r: Registry, sequence: U64): Registry {
    r.(contexts := MarkedStale(r.contexts, sequence), rescanStartedSequence := sequence, rescanNeeded := true)
  }

  function AfterRescan(r: Registry, sequence: U64): Registry {
    r.(contexts := Confirmed(r.contexts, sequence), rescanStartedSequence := 0, rescanNeeded := false)
  }

  function ResultOf(r: Registry, e: Event): ApplyResult {
    var key := KeyOf(e);
    if !IsLifecycleEvent(e.kind) then IGNORED
    else if IsTerminator(e) then APPLIED
    else if key !in r.contexts && !CreatesContext(e.kind) then IGNORED
    else if key in r.contexts && e.sequence != 0 && e.sequence <= r.contexts[key].lastSequence then DUPLICATE
    else if IsGap(r, e) then APPLIED_WITH_GAP
    else APPLIED
  }

  function After(r: Registry, e: Event): Registry {
    var key, result := KeyOf(e), ResultOf(r, e);
    if result == IGNORED || result == DUPLICATE then r
    else if IsTerminator(e) then
      var highest := Higher(r.highestSequence, e.sequence);
      AfterRescan(r.(highestSequence := highest), highest)
    else
      var seen := r.(highestSequence := Higher(r.highestSequence, e.sequence),
                     rescanNeeded := r.rescanNeeded || IsGap(r, e));
      if e.kind.CONTEXT_RELEASED? then seen.(contexts := r.contexts - {key})
      else if key in r.contexts then seen.(contexts := r.contexts[key := Updated(r.contexts[key], e)])
      else seen.(contexts := r.contexts[key := Updated(Fresh(e), e)],
                 contextGeneration := Successor(r.contextGeneration), newestCreatedSequence := e.sequence)
  }

  // ---------------------------------------------------------------- the invariant

  /** No entry is newer than the highest sequence seen. */
  ghost predicate Ordered(r: Registry) {
    forall k | k in r.contexts :: r.contexts[k].lastSequence <= r.highestSequence
  }

  datatype Step = Observe(event: Event) | MarkStale(sequence: U64) | EndRescan(sequence: U64)

  function Stepped(r: Registry, s: Step): Registry {
    match s
    case Observe(e) => After(r, e)
    case MarkStale(sequence) => AfterMarkStale(r, sequence)
    case EndRescan(sequence) => AfterRescan(r, sequence)
  }

  function Run(steps: seq<Step>): Registry {
    if steps == [] then EMPTY else Stepped(Run(steps[..|steps| - 1]), steps[|steps| - 1])
  }

  lemma StepKeepsOrder(r: Registry, s: Step)
    requires Ordered(r)
    ensures Ordered(Stepped(r, s)) && r.highestSequence <= Stepped(r, s).highestSequence
  {
  }

  lemma {:induction false} RunIsOrdered(steps: seq<Step>)
    ensures Ordered(Run(steps))
  {
    if steps != [] {
      RunIsOrdered(steps[..|steps| - 1]);
      StepKeepsOrder(Run(steps[..|steps| - 1]), steps[|steps| - 1]);
    }
  }

  // ---------------------------------------------------------------- the registry

  class SessionRegistry {
    var contexts: map<Key, Entry>
    var highestSequence: U64
    var rescanStartedSequence: U64
    var rescanNeeded: bool
    var contextGeneration: U64
    var newestCreatedSequence: U64

    ghost function Fields(): Registry
      reads this
    {
      Registry(contexts, highestSequence, rescanStartedSequence, rescanNeeded, contextGeneration, newestCreatedSequence)
    }

    constructor ()
      ensures Fields() == EMPTY
    {
      contexts, highestSequence, rescanStartedSequence := map[], 0, 0;
      rescanNeeded, contextGeneration, newestCreatedSequence := false, 0, 0;
    }

    method Apply(e: Event) returns (result: ApplyResult)
      modifies this
      ensures result == ResultOf(old(Fields()), e)
      ensures Fields() == After(old(Fields()), e)
    {
      if !IsLifecycleEvent(e.kind) {
        return IGNORED;
      }
      if e.kind.RESCAN_RESPONSE? && e.contextInstanceId == 0 {
        if e.sequence > highestSequence {
          highestSequence := e.sequence;
        }
        RescanComplete(highestSequence);
        return APPLIED;
      }
      var key := Key(e.bootId, e.contextInstanceId);
      if key !in contexts && !CreatesContext(e.kind) {
        return IGNORED;
      }
      if key in contexts && e.sequence != 0 && e.sequence <= contexts[key].lastSequence {
        return DUPLICATE;
      }
      var gap := false;
      if e.sequence != 0 {
        if highestSequence != 0 && e.sequence > Successor(highestSequence) && !e.kind.RESCAN_RESPONSE? {
          gap := true;
          rescanNeeded := true;
        }
        if e.sequence > highestSequence {
          highestSequence := e.sequence;
        }
      }
      result := if gap then APPLIED_WITH_GAP else APPLIED;
      if e.kind.CONTEXT_RELEASED? {
        contexts := contexts - {key};
        return;
      }
      if key !in contexts {
        contexts := contexts[key := Fresh(e)];
        contextGeneration := Successor(contextGeneration);
        newestCreatedSequence := e.sequence;
      }
      contexts := contexts[key := Updated(contexts[key], e)];
    }

    method MarkStaleAfter(sequence: U64)
      modifies this
      ensures Fields() == AfterMarkStale(old(Fields()), sequence)
    {
      rescanStartedSequence := sequence;
      rescanNeeded := true;
      var todo := contexts.Keys;
      while todo != {}
        invariant todo <= contexts.Keys == old(contexts).Keys
        invariant forall k | k in contexts ::
                    contexts[k] == if k in todo then old(contexts)[k] else MarkedStale(old(contexts), sequence)[k]
        invariant Fields() == old(Fields()).(contexts := contexts, rescanStartedSequence := sequence, rescanNeeded := true)
        decreases |todo|
      {
        var key :| key in todo;
        if contexts[key].lastSequence <= sequence {
          contexts := contexts[key := contexts[key].(stale := true)];
        }
        todo := todo - {key};
      }
      assert contexts == MarkedStale(old(contexts), sequence);
    }

    method RescanComplete(sequence: U64)
      modifies this
      ensures Fields() == AfterRescan(old(Fields()), sequence)
    {
      var todo := contexts.Keys;
      while todo != {}
        invariant todo <= contexts.Keys <= old(contexts).Keys
        invariant forall k | k in todo :: contexts[k] == old(contexts)[k]
        invariant forall k | k in old(contexts) && k !in todo ::
                    (k in contexts <==> k in Confirmed(old(contexts), sequence))
                    && (k in contexts ==> contexts[k] == Confirmed(old(contexts), sequence)[k])
        invariant Fields() == old(Fields()).(contexts := contexts)
        decreases |todo|
      {
        var key :| key in todo;
        if contexts[key].stale && contexts[key].lastSequence <= sequence {
          contexts := contexts - {key};
        } else {
          contexts := contexts[key := contexts[key].(stale := false)];
        }
        todo := todo - {key};
      }
      assert contexts == Confirmed(old(contexts), sequence);
      rescanStartedSequence := 0;
      rescanNeeded := false;
    }
  }
}
