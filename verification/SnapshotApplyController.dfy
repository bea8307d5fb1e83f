/** Staging of a streamed snapshot in the driver, and its atomic commit. */
module SnapshotApply {
  import opened Bytes
  import opened Crc32s
  import opened ViperDaemonProtocol
  import opened SnapshotSchema
  import opened ParameterStream
  import opened Wrappers

  const MAX_STAGED_BYTES: nat := MAX_SNAPSHOT_SIZE

  datatype ApplyError =
    | NONE | NOT_STAGING | ALREADY_STAGING | BAD_METADATA | CHUNK_OUT_OF_ORDER | CHUNK_RANGE | SIZE_MISMATCH
    | CRC_MISMATCH | DECODE_FAILED | DEVICE_MISMATCH | STALE_GENERATION | GRAPH_PREPARE_FAILED | ABORTED

  datatype Metadata = Metadata(
    appGeneration: U64,
    daemonGeneration: U64,
    keyHash: Data,
    totalSize: U32,
    crc32: U32)

  const NO_METADATA := Metadata(0, 0, [], 0, 0)

  /** The surroundings: the device-key hash and the numbering of the parameters. */
  datatype World = World(hash: Data -> Data, catalog: Catalog)

  /** What the committer is called with. */
  datatype CommitRequest = CommitRequest(
    snapshot: Snapshot,
    parameters: seq<RawParamRecord>,
    iemParameters: seq<RawParamRecord>)

  /** What the driver would answer if its committer were called now. */
  datatype Answer = NoCommitter | Refuses | Adopts(resourceGeneration: U64, graphGeneration: U64)

  datatype Reply =
    | Done
    | Failed(error: ApplyError)
    | Applied(appGeneration: U64, daemonGeneration: U64, resourceGeneration: U64, graphGeneration: U64)
    | Idempotent(appGeneration: U64, daemonGeneration: U64, resourceGeneration: U64, graphGeneration: U64)

  /** The controller's fields. */
  datatype State = State(
    keyHash: Data,
    staging: bool,
    metadata: Metadata,
    staged: Data,
    lastApp: U64,
    lastDaemon: U64,
    lastResource: U64,
    lastGraph: U64,
    lastError: ApplyError)

  const INITIAL := State([], false, NO_METADATA, [], 0, 0, 0, 0, NONE)

  datatype Event =
    | SetKeyHash(hash: Data)
    | Begin(metadata: Metadata)
    | Append(offset: U32, chunk: Data)
    | Commit(answer: Answer)
    | Abort(reason: ApplyError)

  /** What one call does: the new fields, what is returned, and the committer call it made, if any. */
  datatype Outcome = Outcome(next: State, reply: Reply, call: Option<CommitRequest>)

  function Refused(s: State, error: ApplyError): Outcome {
    Outcome(s.(lastError := error), Failed(error), None)
  }

  /** Staging is dropped and the call fails. */
  function Dropped(s: State, error: ApplyError, call: Option<CommitRequest>): Outcome {
    Outcome(Unstaged(s).(lastError := error), Failed(error), call)
  }

  function Unstaged(s: State): State {
    s.(staging := false, metadata := NO_METADATA, staged := [])
  }

  function AfterBegin(s: State, m: Metadata): Outcome {
    if s.staging then Refused(s, ALREADY_STAGING)
    else if m.totalSize == 0 || m.totalSize > MAX_STAGED_BYTES then Refused(s, BAD_METADATA)
    else if m.appGeneration == 0 || m.daemonGeneration == 0 then Refused(s, BAD_METADATA)
    else if |m.keyHash| != 64 then Refused(s, BAD_METADATA)
    else if s.keyHash == [] || m.keyHash != s.keyHash then Refused(s, DEVICE_MISMATCH)
    else Outcome(s.(metadata := m, staged := [], staging := true, lastError := NONE), Done, None)
  }

  function AfterAppend(s: State, offset: U32, chunk: Data): Outcome {
    if !s.staging then Refused(s, NOT_STAGING)
    else if offset != |s.staged| then Dropped(s, CHUNK_OUT_OF_ORDER, None)
    else if chunk == [] then Dropped(s, CHUNK_RANGE, None)
    else if |chunk| > s.metadata.totalSize - |s.staged| then Dropped(s, CHUNK_RANGE, None)
    else Outcome(s.(staged := s.staged + chunk), Done, None)
  }

  predicate Older(app: U64, daemon: U64, otherApp: U64, otherDaemon: U64) {
    app < otherApp || (app == otherApp && daemon < otherDaemon)
  }

  function AfterCommit(w: World, s: State, answer: Answer): Outcome {
    if !s.staging then Refused(s, NOT_STAGING)
    else if |s.staged| != s.metadata.totalSize then Dropped(s, SIZE_MISMATCH, None)
    else if PayloadCrc(s.staged) != s.metadata.crc32 then Dropped(s, CRC_MISMATCH, None)
    else
      match DecodedSnapshot(s.staged, w.hash)
      case Err(_) => Dropped(s, DECODE_FAILED, None)
      case Ok(snapshot) =>
        if snapshot.deviceKeyHash != s.keyHash then Dropped(s, DEVICE_MISMATCH, None)
        else if snapshot.appGeneration != s.metadata.appGeneration
                || snapshot.daemonGeneration != s.metadata.daemonGeneration then Dropped(s, BAD_METADATA, None)
        else if Older(snapshot.appGeneration, snapshot.daemonGeneration, s.lastApp, s.lastDaemon)
          then Dropped(s, STALE_GENERATION, None)
        else if snapshot.appGeneration == s.lastApp && snapshot.daemonGeneration == s.lastDaemon then
          Outcome(Unstaged(s).(lastError := NONE),
                  Idempotent(s.lastApp, s.lastDaemon, s.lastResource, s.lastGraph), None)
        else AfterDecoding(w, s, snapshot, answer)
  }

  /** The rest of a commit: the parameter streams, then the committer. */
  function AfterDecoding(w: World, s: State, snapshot: Snapshot, answer: Answer): Outcome {
    var parameters := DecodedStream(w.catalog, snapshot.parameters);
    var iemParameters := DecodedStream(w.catalog, snapshot.iemParameters);
    if parameters.Err? || iemParameters.Err? then Dropped(s, DECODE_FAILED, None)
    else
      var request := Some(CommitRequest(snapshot, parameters.value, iemParameters.value));
      match answer
      case NoCommitter => Dropped(s, GRAPH_PREPARE_FAILED, None)
      case Refuses => Dropped(s, GRAPH_PREPARE_FAILED, request)
      case Adopts(resource, graph) =>
        Outcome(Unstaged(s).(lastApp := snapshot.appGeneration, lastDaemon := snapshot.daemonGeneration,
                             lastResource := resource, lastGraph := graph, lastError := NONE),
                Applied(snapshot.appGeneration, snapshot.daemonGeneration, resource, graph), request)
  }

  function After(w: World, s: State, e: Event): Outcome {
    match e
    case SetKeyHash(hash) => Outcome(s.(keyHash := hash), Done, None)
    case Begin(metadata) => AfterBegin(s, metadata)
    case Append(offset, chunk) => AfterAppend(s, offset, chunk)
    case Commit(answer) => AfterCommit(w, s, answer)
    case Abort(reason) => Outcome(Unstaged(s).(lastError := reason), Done, None)
  }

  // ---------------------------------------------------------------- whole runs

  function Run(w: World, events: seq<Event>): State {
    if events == [] then INITIAL else After(w, Run(w, Front(events)), Last(events)).next
  }

  function Front<T>(s: seq<T>): seq<T>
    requires s != []
  {
    s[..|s| - 1]
  }

  function Last<T>(s: seq<T>): T
    requires s != []
  {
    s[|s| - 1]
  }

  /** What a run has received and been told. */
  datatype History = History(received: Data, announced: Metadata, route: Data)

  /** An accepted begin starts afresh, an accepted chunk is joined on, and a route replaces the one before. */
  function Recorded(s: State, e: Event, h: History): History {
    match e
    case SetKeyHash(hash) => h.(route := hash)
    case Begin(metadata) => if AfterBegin(s, metadata).reply.Done? then h.(received := [], announced := metadata) else h
    case Append(offset, chunk) =>
      if AfterAppend(s, offset, chunk).reply.Done? then h.(received := h.received + chunk) else h
    case Commit(_) => h
    case Abort(_) => h
  }

  function Recording(w: World, events: seq<Event>): History {
    if events == [] then History([], NO_METADATA, [])
    else Recorded(Run(w, Front(events)), Last(events), Recording(w, Front(events)))
  }

  /** The staged bytes are those received, and never more than announced. */
  ghost predicate Faithful(s: State, h: History) {
    && s.keyHash == h.route
    && (s.staging ==>
          && s.staged == h.received && s.metadata == h.announced
          && |s.staged| <= s.metadata.totalSize <= MAX_STAGED_BYTES
          && s.metadata.appGeneration != 0 && s.metadata.daemonGeneration != 0)
  }

  lemma CommitEnds(w: World, s: State, answer: Answer)
    ensures var n := AfterCommit(w, s, answer).next; !n.staging && n.keyHash == s.keyHash
  {
    hide DecodedSnapshot;
    hide DecodedStream;
    hide PayloadCrc;
  }

  lemma StepIsFaithful(w: World, s: State, e: Event, h: History)
    requires Faithful(s, h)
    ensures Faithful(After(w, s, e).next, Recorded(s, e, h))
  {
    hide AfterCommit;
    if e.Commit? {
      CommitEnds(w, s, e.answer);
    }
  }

  lemma {:induction false} StagedIsReceived(w: World, events: seq<Event>)
    ensures Faithful(Run(w, events), Recording(w, events))
  {
    hide After;
    hide Recorded;
    hide Faithful;
    if events == [] {
      StartsFaithful();
    } else {
      StagedIsReceived(w, Front(events));
      StepIsFaithful(w, Run(w, Front(events)), Last(events), Recording(w, Front(events)));
    }
  }

  lemma StartsFaithful()
    ensures Faithful(INITIAL, History([], NO_METADATA, []))
  {
  }

  // ---------------------------------------------------------------- what the committer sees

  /** The request is what a transfer with this history announces and carries. */
  ghost predicate IsAnnounced(w: World, h: History, request: CommitRequest) {
    && |h.received| == h.announced.totalSize && PayloadCrc(h.received) == h.announced.crc32
    && DecodedSnapshot(h.received, w.hash) == Ok(request.snapshot)
    && request.snapshot.deviceKeyHash == h.route
    && request.snapshot.appGeneration == h.announced.appGeneration
    && request.snapshot.daemonGeneration == h.announced.daemonGeneration
    && DecodedStream(w.catalog, request.snapshot.parameters) == Ok(request.parameters)
    && DecodedStream(w.catalog, request.snapshot.iemParameters) == Ok(request.iemParameters)
  }

  lemma CallIsAnnounced(w: World, s: State, e: Event, h: History)
    requires Faithful(s, h) && After(w, s, e).call.Some?
    ensures e.Commit? && s.staging && IsAnnounced(w, h, After(w, s, e).call.value)
    ensures Older(s.lastApp, s.lastDaemon, h.announced.appGeneration, h.announced.daemonGeneration)
  {
    hide DecodedSnapshot;
    hide DecodedStream;
    hide PayloadCrc;
  }

  /** Whenever the committer is called, it is called with the snapshot decoded from the bytes received since the last
      accepted begin, of the announced size, checksum and generations, for the current route, which is not empty, and
      newer than everything adopted before. */
  lemma CommitterSees(w: World, events: seq<Event>, e: Event)
    requires After(w, Run(w, events), e).call.Some?
    ensures var request, h := After(w, Run(w, events), e).call.value, Recording(w, events);
            && e.Commit? && Run(w, events).staging && IsAnnounced(w, h, request)
            && IsValid(request.snapshot, w.hash) && h.route != []
            && Older(Run(w, events).lastApp, Run(w, events).lastDaemon,
                     request.snapshot.appGeneration, request.snapshot.daemonGeneration)
  {
    StagedIsReceived(w, events);
    hide Run;
    hide Recording;
    hide Faithful;
    CallIsAnnounced(w, Run(w, events), e, Recording(w, events));
    hide After;
    var snapshot := After(w, Run(w, events), e).call.value.snapshot;
    DecodedIsValid(Recording(w, events).received, w.hash, snapshot);
  }

  lemma DecodedIsValid(bytes: Data, hash: Data -> Data, s: Snapshot)
    requires DecodedSnapshot(bytes, hash) == Ok(s)
    ensures IsValid(s, hash) && s.deviceKeyHash != [] && s.appGeneration != 0 && s.daemonGeneration != 0
  {
    hide *;
    var master, global, reserved := DecodedIsWire(bytes, hash, s);
    ValidFields(s, hash);
  }

  lemma ValidFields(s: Snapshot, hash: Data -> Data)
    requires IsValid(s, hash)
    ensures |s.deviceKeyHash| == 64 && s.appGeneration != 0 && s.daemonGeneration != 0
  {
  }

  // ---------------------------------------------------------------- generations

  function ReplyAt(w: World, events: seq<Event>, k: nat): Reply
    requires k < |events|
  {
    After(w, Run(w, events[..k]), events[k]).reply
  }

  function LastReply(s: State): Reply {
    Applied(s.lastApp, s.lastDaemon, s.lastResource, s.lastGraph)
  }

  /** Only an adopted snapshot moves the recorded generations, and only forward; a repeated pair is answered with what is
      recorded, without the committer being called. */
  lemma LastMoves(w: World, s: State, e: Event)
    ensures var o := After(w, s, e);
            && (o.reply.Applied? ==>
                  && LastReply(o.next) == o.reply && o.call.Some?
                  && Older(s.lastApp, s.lastDaemon, o.next.lastApp, o.next.lastDaemon))
            && (!o.reply.Applied? ==> LastReply(o.next) == LastReply(s))
            && (o.reply.Idempotent? ==>
                  && o.call.None? && s.staging
                  && LastReply(s) == Applied(o.reply.appGeneration, o.reply.daemonGeneration,
                                             o.reply.resourceGeneration, o.reply.graphGeneration))
  {
    hide DecodedSnapshot;
    hide DecodedStream;
    hide PayloadCrc;
  }

  lemma RunStep(w: World, events: seq<Event>, k: nat)
    requires k < |events|
    ensures Run(w, events[..k + 1]) == After(w, Run(w, events[..k]), events[k]).next
  {
    hide After;
    assert Front(events[..k + 1]) == events[..k] && Last(events[..k + 1]) == events[k];
  }

  lemma {:induction false} LastNeverOlder(w: World, events: seq<Event>, i: nat, j: nat)
    requires i <= j <= |events|
    ensures var a, b := Run(w, events[..i]), Run(w, events[..j]);
            !Older(b.lastApp, b.lastDaemon, a.lastApp, a.lastDaemon)
    decreases j
  {
    hide After;
    hide Run;
    if i < j {
      LastNeverOlder(w, events, i, j - 1);
      RunStep(w, events, j - 1);
      LastMoves(w, Run(w, events[..j - 1]), events[j - 1]);
    }
  }

  /** The generation pairs of adopted snapshots strictly increase, app generation first. */
  lemma GenerationsIncrease(w: World, events: seq<Event>, i: nat, j: nat)
    requires i < j < |events| && ReplyAt(w, events, i).Applied? && ReplyAt(w, events, j).Applied?
    ensures var a, b := ReplyAt(w, events, i), ReplyAt(w, events, j);
            Older(a.appGeneration, a.daemonGeneration, b.appGeneration, b.daemonGeneration)
  {
    hide After;
    hide Run;
    RunStep(w, events, i);
    LastMoves(w, Run(w, events[..i]), events[i]);
    LastNeverOlder(w, events, i + 1, j);
    LastMoves(w, Run(w, events[..j]), events[j]);
  }

  /** What is recorded was adopted by some event of the run, unless nothing was. */
  lemma {:induction false} LastWasAdopted(w: World, events: seq<Event>) returns (k: nat)
    ensures LastReply(Run(w, events)) == LastReply(INITIAL)
            || (k < |events| && ReplyAt(w, events, k) == LastReply(Run(w, events)))
  {
    hide After;
    if events == [] {
      k := 0;
    } else {
      var front, n := Front(events), |events| - 1;
      k := LastWasAdopted(w, front);
      LastMoves(w, Run(w, front), Last(events));
      if After(w, Run(w, front), Last(events)).reply.Applied? {
        k := n;
      } else if k < n {
        assert front[..k] == events[..k] && front[k] == events[k];
      }
    }
  }

  /** A commit answered as a repeat names a snapshot that was adopted before, with the generations it was adopted
      under. */
  lemma RepeatWasAdopted(w: World, events: seq<Event>, e: Event) returns (k: nat)
    requires After(w, Run(w, events), e).reply.Idempotent?
    ensures After(w, Run(w, events), e).call.None?
    ensures var r := After(w, Run(w, events), e).reply;
            k < |events| && ReplyAt(w, events, k)
                         == Applied(r.appGeneration, r.daemonGeneration, r.resourceGeneration, r.graphGeneration)
  {
    LastMoves(w, Run(w, events), e);
    StagedIsReceived(w, events);
    RepeatIsNotInitial(w, Run(w, events), e, Recording(w, events));
    hide *;
    k := LastWasAdopted(w, events);
    AppliedApart(Run(w, events));
  }

  lemma AppliedApart(s: State)
    requires s.lastApp != 0
    ensures LastReply(s) != LastReply(INITIAL)
  {
  }

  lemma RepeatIsNotInitial(w: World, s: State, e: Event, h: History)
    requires Faithful(s, h) && After(w, s, e).reply.Idempotent?
    ensures s.lastApp != 0
  {
    hide DecodedSnapshot;
    hide DecodedStream;
    hide PayloadCrc;
  }

  // ---------------------------------------------------------------- the controller

  /** The committer is played by the answer each commit is given; `calls` records what it was called with. */
  class SnapshotApplyController {
    const world: World
    var keyHash: Data
    var staging: bool
    var metadata: Metadata
    var staged: Data
    var lastApp: U64
    var lastDaemon: U64
    var lastResource: U64
    var lastGraph: U64
    var lastError: ApplyError
    ghost var events: seq<Event>
    ghost var calls: seq<CommitRequest>

    ghost function Fields(): State
      reads this
    {
      State(keyHash, staging, metadata, staged, lastApp, lastDaemon, lastResource, lastGraph, lastError)
    }

    /** The fields are those of the run so far. */
    ghost predicate Valid()
      reads this
    {
      Fields() == Run(world, events)
    }

    constructor (w: World)
      ensures Valid() && world == w && events == [] && calls == [] && Fields() == INITIAL
    {
      world := w;
      keyHash, staging, metadata, staged := [], false, NO_METADATA, [];
      lastApp, lastDaemon, lastResource, lastGraph, lastError := 0, 0, 0, 0, NONE;
      events, calls := [], [];
    }

    /** What one more event does to the fields, the calls and the reply. */
    twostate predicate Took(e: Event, reply: Reply)
      reads this
    {
      var o := After(world, old(Fields()), e);
      && Fields() == o.next && reply == o.reply && events == old(events) + [e]
      && calls == old(calls) + if o.call.Some? then [o.call.value] else []
    }

    method SetDeviceKeyHash(hash: Data)
      requires Valid()
      modifies this
      ensures Valid() && Took(SetKeyHash(hash), Done)
    {
      keyHash := hash;
      Record(SetKeyHash(hash), None);
    }

    method Begin(m: Metadata) returns (r: Reply)
      requires Valid()
      modifies this
      ensures Valid() && Took(Event.Begin(m), r)
    {
      if staging {
        r := Fail(ALREADY_STAGING);
      } else if m.totalSize == 0 || m.totalSize > MAX_STAGED_BYTES {
        r := Fail(BAD_METADATA);
      } else if m.appGeneration == 0 || m.daemonGeneration == 0 {
        r := Fail(BAD_METADATA);
      } else if |m.keyHash| != 64 {
        r := Fail(BAD_METADATA);
      } else if keyHash == [] || m.keyHash != keyHash {
        r := Fail(DEVICE_MISMATCH);
      } else {
        metadata, staged, staging, lastError := m, [], true, NONE;
        r := Done;
      }
      Record(Event.Begin(m), None);
    }

    method Append(offset: U32, chunk: Data) returns (r: Reply)
      requires Valid()
      modifies this
      ensures Valid() && Took(Event.Append(offset, chunk), r)
    {
      if !staging {
        r := Fail(NOT_STAGING);
      } else if offset != |staged| {
        r := Drop(CHUNK_OUT_OF_ORDER);
      } else if chunk == [] {
        r := Drop(CHUNK_RANGE);
      } else if |chunk| > metadata.totalSize - |staged| {
        r := Drop(CHUNK_RANGE);
      } else {
        staged := staged + chunk;
        r := Done;
      }
      Record(Event.Append(offset, chunk), None);
    }

    method Commit(answer: Answer) returns (r: Reply)
      requires Valid()
      modifies this
      ensures Valid() && Took(Event.Commit(answer), r)
    {
      ghost var call;
      r, call := TryCommit(answer);
      Record(Event.Commit(answer), call);
    }

    method TryCommit(answer: Answer) returns (r: Reply, ghost call: Option<CommitRequest>)
      modifies this
      ensures Outcome(Fields(), r, call) == AfterCommit(world, old(Fields()), answer)
      ensures unchanged(`events) && unchanged(`calls)
    {
      hide DecodedSnapshot;
      hide AfterDecoding;
      hide PayloadCrc;
      call := None;
      if !staging {
        r := Fail(NOT_STAGING);
        return;
      }
      if |staged| != metadata.totalSize {
        r := Drop(SIZE_MISMATCH);
        return;
      }
      if PayloadCrc(staged) != metadata.crc32 {
        r := Drop(CRC_MISMATCH);
        return;
      }
      var decoded := DecodeSnapshot(staged, world.hash);
      if decoded.Err? {
        r := Drop(DECODE_FAILED);
        return;
      }
      var snapshot := decoded.value;
      if snapshot.deviceKeyHash != keyHash {
        r := Drop(DEVICE_MISMATCH);
      } else if snapshot.appGeneration != metadata.appGeneration
                || snapshot.daemonGeneration != metadata.daemonGeneration {
        r := Drop(BAD_METADATA);
      } else if Older(snapshot.appGeneration, snapshot.daemonGeneration, lastApp, lastDaemon) {
        r := Drop(STALE_GENERATION);
      } else if snapshot.appGeneration == lastApp && snapshot.daemonGeneration == lastDaemon {
        Reset();
        r := Idempotent(lastApp, lastDaemon, lastResource, lastGraph);
        lastError := NONE;
      } else {
        r, call := Adopt(snapshot, answer);
      }
    }

    /** Replays the parameter streams through the committer. */
    method Adopt(snapshot: Snapshot, answer: Answer) returns (r: Reply, ghost call: Option<CommitRequest>)
      modifies this
      ensures Outcome(Fields(), r, call) == AfterDecoding(world, old(Fields()), snapshot, answer)
      ensures unchanged(`events) && unchanged(`calls)
    {
      hide DecodedStream;
      call := None;
      var parameters := DecodeParameterStream(world.catalog, snapshot.parameters);
      if parameters.Err? {
        r := Drop(DECODE_FAILED);
        return;
      }
      var iemParameters := DecodeParameterStream(world.catalog, snapshot.iemParameters);
      if iemParameters.Err? {
        r := Drop(DECODE_FAILED);
        return;
      }
      if answer.NoCommitter? {
        r := Drop(GRAPH_PREPARE_FAILED);
        return;
      }
      call := Some(CommitRequest(snapshot, parameters.value, iemParameters.value));
      if answer.Refuses? {
        r := Drop(GRAPH_PREPARE_FAILED);
        return;
      }
      lastApp, lastDaemon := snapshot.appGeneration, snapshot.daemonGeneration;
      lastResource, lastGraph := answer.resourceGeneration, answer.graphGeneration;
      Reset();
      lastError := NONE;
      r := Applied(lastApp, lastDaemon, lastResource, lastGraph);
    }

    method Abort(reason: ApplyError)
      requires Valid()
      modifies this
      ensures Valid() && Took(Event.Abort(reason), Done)
    {
      var _ := Drop(reason);
      Record(Event.Abort(reason), None);
    }

    method Fail(error: ApplyError) returns (r: Reply)
      modifies `lastError
      ensures Fields() == old(Fields()).(lastError := error) && r == Failed(error)
    {
      lastError := error;
      r := Failed(error);
    }

    method Drop(error: ApplyError) returns (r: Reply)
      modifies `staging, `metadata, `staged, `lastError
      ensures Fields() == Unstaged(old(Fields())).(lastError := error) && r == Failed(error)
    {
      Reset();
      r := Fail(error);
    }

    /** Releases the staging buffer. */
    method Reset()
      modifies `staging, `metadata, `staged
      ensures Fields() == Unstaged(old(Fields()))
    {
      staging, metadata, staged := false, NO_METADATA, [];
    }

    ghost method Record(e: Event, call: Option<CommitRequest>)
      modifies `events, `calls
      ensures events == old(events) + [e] && Front(events) == old(events) && Last(events) == e
      ensures calls == old(calls) + if call.Some? then [call.value] else []
    {
      events := events + [e];
      calls := calls + if call.Some? then [call.value] else [];
    }
  }
}
