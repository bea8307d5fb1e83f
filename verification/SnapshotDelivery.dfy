/** A snapshot on its way from the daemon to the driver: the frames sent, what every driver context makes of them, and
    what is answered. */
module SnapshotDelivery {
  import opened Bytes
  import opened Wrappers
  import opened ViperDaemonProtocol
  import opened SnapshotSchema
  import opened ParameterStream
  import Command = SnapshotCommand
  import opened SnapshotApply

  datatype Ack = Ack(
    accepted: bool,
    error: ApplyError,
    appGeneration: U64,
    daemonGeneration: U64,
    resourceGeneration: U64,
    graphGeneration: U64)

  const NACK := Ack(false, NONE, 0, 0, 0, 0)

  /** What one context does with one command. */
  datatype Handled = Handled(next: State, ack: Ack, call: Option<CommitRequest>)

  function ErrorOf(r: Reply): ApplyError {
    if r.Failed? then r.error else NONE
  }

  /** A decoded command in one context. */
  function Obeyed(w: World, s: State, c: Command.Command, answer: Answer): Handled {
    match c
    case Route(_, hash) => Handled(After(w, s, SetKeyHash(hash)).next, NACK.(accepted := true), None)
    case Begin(_, app, daemon, size, crc, hash) =>
      var o := AfterBegin(s, Metadata(app, daemon, hash, size, crc));
      Handled(o.next, Ack(!o.reply.Failed?, ErrorOf(o.reply), app, daemon, 0, 0), None)
    case Chunk(offset, data) =>
      var o := AfterAppend(s, offset, data);
      Handled(o.next, Ack(!o.reply.Failed?, ErrorOf(o.reply), 0, 0, 0, 0), None)
    case Commit(app, daemon) =>
      var o := AfterCommit(w, s, answer);
      Handled(o.next, CommitAck(o.reply, app, daemon), o.call)
    case Abort(_) => Handled(After(w, s, Event.Abort(ABORTED)).next, Ack(true, ABORTED, 0, 0, 0, 0), None)
  }

  function CommitAck(r: Reply, app: U64, daemon: U64): Ack {
    match r
    case Applied(a, d, resource, graph) => Ack(true, NONE, a, d, resource, graph)
    case Idempotent(a, d, resource, graph) => Ack(true, NONE, a, d, resource, graph)
    case Failed(error) => Ack(false, error, app, daemon, 0, 0)
    case Done => Ack(true, NONE, app, daemon, 0, 0)
  }

  /** A command as it arrives in one context. */
  function HandleSnapshotCommand(w: World, s: State, messageType: U16, payload: Data, answer: Answer): Handled {
    match Command.DecodeCommand(messageType, payload)
    case Some(c) => Obeyed(w, s, c, answer)
    case None =>
      if messageType == Command.TYPE_CHUNK then
        Handled(After(w, s, Event.Abort(CHUNK_RANGE)).next, NACK.(error := CHUNK_RANGE), None)
      else if messageType == Command.TYPE_COMMIT then
        Handled(After(w, s, Event.Abort(BAD_METADATA)).next, NACK.(error := BAD_METADATA), None)
      else if messageType == Command.TYPE_ABORT then
        Handled(After(w, s, Event.Abort(ABORTED)).next, Ack(true, ABORTED, 0, 0, 0, 0), None)
      else Handled(s, NACK.(error := BAD_METADATA), None)
  }

  // ---------------------------------------------------------------- fan-out

  /** One acknowledgement for all contexts. */
  method FoldAcks(acks: seq<Ack>) returns (ack: Ack)
    ensures ack == Folded(acks)
  {
    if acks == [] {
      return NACK.(error := NOT_STAGING);
    }
    ack := NACK.(accepted := true);
    var haveResult := false;
    for k := 0 to |acks|
      invariant haveResult == (k > 0)
      invariant k == 0 ==> ack.accepted
      invariant k > 0 ==> ack == Folded(acks[..k])
    {
      var one := acks[k];
      var decisive := !one.accepted && ack.accepted;
      FoldedNext(acks[..k], one);
      assert acks[..k + 1] == acks[..k] + [one];
      if decisive || !haveResult {
        ack := one;
        haveResult := true;
      }
    }
    assert acks[..|acks|] == acks;
  }

  /** The first refusal, or else the first acknowledgement. */
  function Folded(acks: seq<Ack>): Ack {
    if acks == [] then NACK.(error := NOT_STAGING)
    else if FirstRefusal(acks) < |acks| then acks[FirstRefusal(acks)]
    else acks[0]
  }

  function FirstRefusal(acks: seq<Ack>): (k: nat)
    ensures k <= |acks|
    ensures k < |acks| ==> !acks[k].accepted
    ensures forall i | 0 <= i < k :: acks[i].accepted
  {
    if acks == [] || !acks[0].accepted then 0 else 1 + FirstRefusal(acks[1..])
  }

  lemma FoldedNext(acks: seq<Ack>, one: Ack)
    ensures Folded(acks + [one])
         == if acks == [] || (Folded(acks).accepted && !one.accepted) then one else Folded(acks)
  {
    FirstRefusalNext(acks, one);
  }

  lemma {:induction false} FirstRefusalNext(acks: seq<Ack>, one: Ack)
    ensures FirstRefusal(acks + [one])
         == FirstRefusal(acks) + if FirstRefusal(acks) == |acks| && one.accepted then 1 else 0
  {
    if acks != [] {
      assert (acks + [one])[1..] == acks[1..] + [one];
      FirstRefusalNext(acks[1..], one);
    }
  }

  /** A command succeeds exactly when there are contexts and all of them accept it. */
  lemma FoldedMeansAll(acks: seq<Ack>)
    ensures Folded(acks).accepted <==> acks != [] && forall i | 0 <= i < |acks| :: acks[i].accepted
    ensures acks != [] ==> Folded(acks) in acks
  {
  }

  // ---------------------------------------------------------------- frames arriving at the driver

  /** An answer to the command with this request id. */
  datatype Response = Response(requestId: U64, ack: Ack)

  /** The contexts afterwards, what was sent back, and what each context's committer was called with. */
  datatype Reaction = Reaction(contexts: seq<State>, responses: seq<Response>, calls: seq<seq<CommitRequest>>)

  function Called(call: Option<CommitRequest>): seq<CommitRequest> {
    if call.Some? then [call.value] else []
  }

  /** What each of `n` committers would answer. */
  function First(answers: nat -> Answer, n: nat): (some: seq<Answer>)
    ensures |some| == n
  {
    seq(n, i requires 0 <= i < n => answers(i))
  }

  /** No context's committer is called. */
  function Quiet(n: nat): (calls: seq<seq<CommitRequest>>)
    ensures |calls| == n && forall i | 0 <= i < n :: calls[i] == []
  {
    seq(n, _ => [])
  }

  /** Answers are suppressed for accepted chunks only. */
  function Answered(messageType: U16, id: U64, ack: Ack): seq<Response> {
    if messageType == Command.TYPE_CHUNK && ack.accepted then [] else [Response(id, ack)]
  }

  function Reacted(messageType: U16, id: U64, handled: seq<Handled>): (r: Reaction)
    ensures |r.contexts| == |r.calls| == |handled|
  {
    Reaction(seq(|handled|, i requires 0 <= i < |handled| => handled[i].next),
             Answered(messageType, id, Folded(Acks(handled))),
             seq(|handled|, i requires 0 <= i < |handled| => Called(handled[i].call)))
  }

  function Acks(handled: seq<Handled>): (acks: seq<Ack>)
    ensures |acks| == |handled|
    ensures forall i | 0 <= i < |handled| :: acks[i] == handled[i].ack
  {
    seq(|handled|, i requires 0 <= i < |handled| => handled[i].ack)
  }

  function Receive(w: World, contexts: seq<State>, bytes: Data, answers: seq<Answer>): (r: Reaction)
    requires |answers| == |contexts|
    ensures |r.contexts| == |r.calls| == |contexts|
  {
    match DecodeFrame(bytes)
    case Err(_) => Reaction(contexts, [], Quiet(|contexts|))
    case Ok(frame) =>
      if !Command.IsCommandType(frame.header.messageType) then Reaction(contexts, [], Quiet(|contexts|))
      else
        Reacted(frame.header.messageType, frame.header.requestId,
                AllHandle(w, contexts, frame.header.messageType, frame.payload, answers))
  }

  function AllHandle(w: World, contexts: seq<State>, messageType: U16, payload: Data, answers: seq<Answer>)
    : (handled: seq<Handled>)
    requires |answers| == |contexts|
    ensures |handled| == |contexts|
  {
    seq(|contexts|, i requires 0 <= i < |contexts| =>
      HandleSnapshotCommand(w, contexts[i], messageType, payload, answers[i]))
  }

  function AllObey(w: World, contexts: seq<State>, c: Command.Command, answers: seq<Answer>): (handled: seq<Handled>)
    requires |answers| == |contexts|
    ensures |handled| == |contexts|
    ensures forall i | 0 <= i < |contexts| :: handled[i] == Obeyed(w, contexts[i], c, answers[i])
  {
    seq(|contexts|, i requires 0 <= i < |contexts| => Obeyed(w, contexts[i], c, answers[i]))
  }

  function Joined(a: seq<seq<CommitRequest>>, b: seq<seq<CommitRequest>>): (all: seq<seq<CommitRequest>>)
    requires |a| == |b|
    ensures |all| == |a| && forall i | 0 <= i < |a| :: all[i] == a[i] + b[i]
  {
    seq(|a|, i requires 0 <= i < |a| => a[i] + b[i])
  }

  /** The frames one after the other. */
  function Deliver(w: World, contexts: seq<State>, frames: seq<Data>, answers: seq<Answer>): (r: Reaction)
    requires |answers| == |contexts|
    ensures |r.contexts| == |r.calls| == |contexts|
    decreases |frames|
  {
    if frames == [] then Reaction(contexts, [], Quiet(|contexts|))
    else
      var first := Receive(w, contexts, frames[0], answers);
      var rest := Deliver(w, first.contexts, frames[1..], answers);
      Reaction(rest.contexts, first.responses + rest.responses, Joined(first.calls, rest.calls))
  }

  // ---------------------------------------------------------------- frames sent by the daemon

  function CommandHeader(c: Command.Command, id: U64): FrameHeader {
    FrameHeader(PROTOCOL_VERSION, Command.TypeOf(c), 0, id, 0, 0, 0)
  }

  function CommandFrame(c: Command.Command, id: U64): Data
    requires Command.Allowed(c)
  {
    PayloadFits(c);
    EncodeFrame(CommandHeader(c, id), Command.EncodeCommand(c).value).value
  }

  lemma PayloadFits(c: Command.Command)
    requires Command.Allowed(c)
    ensures |Command.EncodeCommand(c).value| <= MAX_PAYLOAD_SIZE
  {
    Command.LayoutWidths();
    hide Width;
    hide IsLowerHex64;
    if c.Begin? || (c.Route? && c.keyHash != []) {
      Command.LowerHexLength(c.keyHash);
    }
  }

  /** What every context does with a command that went through both codecs. */
  function FanOut(w: World, contexts: seq<State>, c: Command.Command, id: U64, answers: seq<Answer>): (r: Reaction)
    requires |answers| == |contexts|
    ensures |r.contexts| == |r.calls| == |contexts|
  {
    Reacted(Command.TypeOf(c), id, AllObey(w, contexts, c, answers))
  }

  /** A sent command is obeyed as it was meant. */
  lemma ReceivesCommand(w: World, contexts: seq<State>, c: Command.Command, id: U64, answers: seq<Answer>)
    requires |answers| == |contexts| && Command.Allowed(c)
    ensures Receive(w, contexts, CommandFrame(c, id), answers) == FanOut(w, contexts, c, id, answers)
  {
    FrameDecodes(c, id);
    Command.DecodeEncode(c);
    hide Command.EncodeCommand;
    hide Command.DecodeCommand;
    hide CommandFrame;
    hide DecodeFrame;
    hide AllHandle;
    hide AllObey;
    hide Reacted;
    AllHandleIsObey(w, contexts, Command.TypeOf(c), Command.EncodeCommand(c).value, c, answers);
  }

  lemma FrameDecodes(c: Command.Command, id: U64)
    requires Command.Allowed(c)
    ensures DecodeFrame(CommandFrame(c, id)).Ok?
    ensures var frame := DecodeFrame(CommandFrame(c, id)).value;
            && frame.header.messageType == Command.TypeOf(c) && frame.header.requestId == id
            && frame.payload == Command.EncodeCommand(c).value
  {
    PayloadFits(c);
    hide Command.EncodeCommand;
    hide HeaderBytes;
    hide PayloadCrc;
    ViperDaemonProtocol.DecodeEncode(CommandHeader(c, id), Command.EncodeCommand(c).value);
    hide DecodeFrame;
  }

  lemma AllHandleIsObey(
      w: World, contexts: seq<State>, messageType: U16, payload: Data, c: Command.Command, answers: seq<Answer>)
    requires |answers| == |contexts| && Command.DecodeCommand(messageType, payload) == Some(c)
    ensures AllHandle(w, contexts, messageType, payload, answers) == AllObey(w, contexts, c, answers)
  {
    hide Command.DecodeCommand;
    hide Obeyed;
  }

  // ---------------------------------------------------------------- a whole transfer

  function BeginFor(snapshot: Snapshot, bytes: Data): Command.Command
    requires |bytes| <= MAX_SNAPSHOT_SIZE
  {
    Command.Begin(Command.COMMAND_VERSION, snapshot.appGeneration, snapshot.daemonGeneration, |bytes|, PayloadCrc(bytes),
                  snapshot.deviceKeyHash)
  }

  function MetadataFor(snapshot: Snapshot, bytes: Data): Metadata
    requires |bytes| <= MAX_SNAPSHOT_SIZE
  {
    Metadata(snapshot.appGeneration, snapshot.daemonGeneration, snapshot.deviceKeyHash, |bytes|, PayloadCrc(bytes))
  }

  function RouteFor(keyHash: Data): Command.Command {
    Command.Route(Command.COMMAND_VERSION, keyHash)
  }

  function CommitFor(snapshot: Snapshot): Command.Command {
    Command.Commit(snapshot.appGeneration, snapshot.daemonGeneration)
  }

  function ChunkEnd(bytes: Data, offset: nat): (end: nat)
    requires offset < |bytes|
    ensures offset < end <= |bytes| && end - offset <= Command.MAX_CHUNK_BYTES
  {
    if |bytes| - offset < Command.MAX_CHUNK_BYTES then |bytes| else offset + Command.MAX_CHUNK_BYTES
  }

  function ChunkFrames(bytes: Data, offset: nat, id: U64): seq<Data>
    requires offset <= |bytes| <= MAX_SNAPSHOT_SIZE
    decreases |bytes| - offset
  {
    if offset == |bytes| then []
    else
      var end := ChunkEnd(bytes, offset);
      [CommandFrame(Command.Chunk(offset, bytes[offset..end]), id)] + ChunkFrames(bytes, end, id)
  }

  /** Every context stages `prefix` of what `m` announces. */
  function Staging(contexts: seq<State>, m: Metadata, prefix: Data): (staging: seq<State>)
    ensures |staging| == |contexts|
    ensures forall i | 0 <= i < |contexts| ::
              staging[i] == contexts[i].(metadata := m, staged := prefix, staging := true, lastError := NONE)
  {
    seq(|contexts|, i requires 0 <= i < |contexts| =>
      contexts[i].(metadata := m, staged := prefix, staging := true, lastError := NONE))
  }

  ghost predicate AllReady(contexts: seq<State>, keyHash: Data) {
    contexts != [] && forall i | 0 <= i < |contexts| :: !contexts[i].staging && contexts[i].keyHash == keyHash
  }

  lemma AllAccept(messageType: U16, id: U64, handled: seq<Handled>, contexts: seq<State>, ack: Ack)
    requires handled != [] && |contexts| == |handled| && ack.accepted
    requires forall i | 0 <= i < |handled| :: handled[i] == Handled(contexts[i], ack, None)
    ensures Reacted(messageType, id, handled)
         == Reaction(contexts, Answered(messageType, id, ack), Quiet(|contexts|))
  {
    FoldedMeansAll(Acks(handled));
    assert Folded(Acks(handled)) == ack;
    assert Reacted(messageType, id, handled).calls == Quiet(|contexts|);
  }

  lemma BeginDelivered(
      w: World, contexts: seq<State>, snapshot: Snapshot, bytes: Data, id: U64, answers: seq<Answer>)
    requires |answers| == |contexts| && AllReady(contexts, snapshot.deviceKeyHash)
    requires 0 < |bytes| <= MAX_SNAPSHOT_SIZE && |snapshot.deviceKeyHash| == 64
    requires snapshot.appGeneration != 0 && snapshot.daemonGeneration != 0
    ensures FanOut(w, contexts, BeginFor(snapshot, bytes), id, answers)
         == Reaction(Staging(contexts, MetadataFor(snapshot, bytes), []),
                     [BeginReply(snapshot, id)],
                     Quiet(|contexts|))
  {
    hide PayloadCrc;
    hide AfterCommit;
    hide Reacted;
    var c, m := BeginFor(snapshot, bytes), MetadataFor(snapshot, bytes);
    var ack := Ack(true, NONE, snapshot.appGeneration, snapshot.daemonGeneration, 0, 0);
    var handled, after := AllObey(w, contexts, c, answers), Staging(contexts, m, []);
    forall i | 0 <= i < |contexts|
      ensures handled[i] == Handled(after[i], ack, None)
    {
    }
    AllAccept(Command.TYPE_BEGIN, id, handled, after, ack);
  }

  lemma ChunkDelivered(
      w: World, contexts: seq<State>, m: Metadata, prefix: Data, chunk: Data, id: U64, answers: seq<Answer>)
    requires |answers| == |contexts| > 0
    requires chunk != [] && |prefix| + |chunk| <= m.totalSize
    ensures FanOut(w, Staging(contexts, m, prefix), Command.Chunk(|prefix|, chunk), id, answers)
         == Reaction(Staging(contexts, m, prefix + chunk), [], Quiet(|contexts|))
  {
    hide AfterCommit;
    hide Reacted;
    var ack := Ack(true, NONE, 0, 0, 0, 0);
    var handled := AllObey(w, Staging(contexts, m, prefix), Command.Chunk(|prefix|, chunk), answers);
    var after := Staging(contexts, m, prefix + chunk);
    forall i | 0 <= i < |contexts|
      ensures handled[i] == Handled(after[i], ack, None)
    {
    }
    AllAccept(Command.TYPE_CHUNK, id, handled, after, ack);
  }

  /** The chunks stage all the bytes in every context, and nothing is answered. */
  lemma {:induction false} ChunksDelivered(
      w: World, contexts: seq<State>, m: Metadata, bytes: Data, offset: nat, id: U64, answers: seq<Answer>,
      after: seq<Data>)
    requires |answers| == |contexts| > 0
    requires offset <= |bytes| == m.totalSize <= MAX_SNAPSHOT_SIZE
    ensures Deliver(w, Staging(contexts, m, bytes[..offset]), ChunkFrames(bytes, offset, id) + after, answers)
         == Deliver(w, Staging(contexts, m, bytes), after, answers)
    decreases |bytes| - offset
  {
    hide Receive;
    hide FanOut;
    hide CommandFrame;
    hide Deliver;
    if offset == |bytes| {
      assert bytes[..offset] == bytes && ChunkFrames(bytes, offset, id) + after == after;
    } else {
      var end := ChunkEnd(bytes, offset);
      var before, chunk := Staging(contexts, m, bytes[..offset]), Command.Chunk(offset, bytes[offset..end]);
      ReceivesCommand(w, before, chunk, id, answers);
      ChunkDelivered(w, contexts, m, bytes[..offset], bytes[offset..end], id, answers);
      assert bytes[..offset] + bytes[offset..end] == bytes[..end];
      ChunksDelivered(w, contexts, m, bytes, end, id, answers, after);
      var later := ChunkFrames(bytes, end, id) + after;
      assert ChunkFrames(bytes, offset, id) + after == [CommandFrame(chunk, id)] + later;
      DeliverFirst(w, before, CommandFrame(chunk, id), later, answers);
      var rest := Deliver(w, Staging(contexts, m, bytes[..end]), later, answers);
      JoinedQuiet(rest.calls);
      assert [] + rest.responses == rest.responses;
    }
  }

  lemma JoinedQuiet(calls: seq<seq<CommitRequest>>)
    ensures Joined(Quiet(|calls|), calls) == calls
  {
    forall i | 0 <= i < |calls|
      ensures Joined(Quiet(|calls|), calls)[i] == calls[i]
    {
    }
  }

  lemma DeliverFirst(w: World, contexts: seq<State>, frame: Data, frames: seq<Data>, answers: seq<Answer>)
    requires |answers| == |contexts|
    ensures var first := Receive(w, contexts, frame, answers);
            var rest := Deliver(w, first.contexts, frames, answers);
            Reaction(rest.contexts, first.responses + rest.responses, Joined(first.calls, rest.calls))
            == Deliver(w, contexts, [frame] + frames, answers)
  {
    hide Receive;
    assert ([frame] + frames)[1..] == frames;
  }

  /** The snapshot is newer than what the context has. */
  predicate IsNewer(s: State, snapshot: Snapshot) {
    Older(s.lastApp, s.lastDaemon, snapshot.appGeneration, snapshot.daemonGeneration)
  }

  predicate IsRepeat(s: State, snapshot: Snapshot) {
    s.lastApp == snapshot.appGeneration && s.lastDaemon == snapshot.daemonGeneration
  }

  /** A commit in a context that staged the right bytes. */
  ghost predicate CommitsTo(s: State, snapshot: Snapshot, request: CommitRequest, answer: Answer, h: Handled) {
    && (h.ack.accepted <==> IsRepeat(s, snapshot) || (IsNewer(s, snapshot) && answer.Adopts?))
    && h.call == (if IsNewer(s, snapshot) && !answer.NoCommitter? then Some(request) else None)
    && !h.next.staging && h.next.keyHash == s.keyHash
    && (if h.ack.accepted then IsRepeat(h.next, snapshot)
        else h.next.lastApp == s.lastApp && h.next.lastDaemon == s.lastDaemon)
  }

  lemma CommitOf(
      w: World, s: State, bytes: Data, c: Command.Command, request: CommitRequest, answer: Answer)
    requires c.Commit? && s.staging && s.staged == bytes && |bytes| <= MAX_SNAPSHOT_SIZE
    requires s.metadata == MetadataFor(request.snapshot, bytes) && s.keyHash == request.snapshot.deviceKeyHash
    requires DecodedSnapshot(bytes, w.hash) == Ok(request.snapshot)
    requires DecodedStream(w.catalog, request.snapshot.parameters) == Ok(request.parameters)
    requires DecodedStream(w.catalog, request.snapshot.iemParameters) == Ok(request.iemParameters)
    ensures CommitsTo(s, request.snapshot, request, answer, Obeyed(w, s, c, answer))
  {
    hide DecodedSnapshot;
    hide DecodedStream;
    hide PayloadCrc;
  }

  /** What the daemon needs of a snapshot and its wire form to send them. */
  predicate Sendable(snapshot: Snapshot, bytes: Data) {
    && 0 < |bytes| <= MAX_SNAPSHOT_SIZE && IsLowerHex64(snapshot.deviceKeyHash)
    && snapshot.appGeneration != 0 && snapshot.daemonGeneration != 0
  }

  /** Everything after the answer to the begin. */
  function StreamFrames(snapshot: Snapshot, bytes: Data, id: U64): seq<Data>
    requires Sendable(snapshot, bytes)
  {
    ChunkFrames(bytes, 0, id) + [CommandFrame(CommitFor(snapshot), id)]
  }

  function TransferFrames(snapshot: Snapshot, bytes: Data, id: U64): seq<Data>
    requires Sendable(snapshot, bytes)
  {
    [CommandFrame(BeginFor(snapshot, bytes), id)] + StreamFrames(snapshot, bytes, id)
  }

  /** The bytes the daemon sends decode to what it meant to send. */
  ghost predicate Means(w: World, bytes: Data, request: CommitRequest) {
    && DecodedSnapshot(bytes, w.hash) == Ok(request.snapshot)
    && DecodedStream(w.catalog, request.snapshot.parameters) == Ok(request.parameters)
    && DecodedStream(w.catalog, request.snapshot.iemParameters) == Ok(request.iemParameters)
  }

  /** Everything a transfer brings about: two answers under its request id, the first accepted, the second accepted
      exactly when each context has this snapshot or is older and adopts it; every older context's committer is called
      once, with exactly this snapshot; no context is left staging. */
  ghost predicate Delivered(
      contexts: seq<State>, request: CommitRequest, id: U64, answers: seq<Answer>, r: Reaction)
    requires |contexts| == |answers| == |r.contexts| == |r.calls|
  {
    var snapshot := request.snapshot;
    && |r.responses| == 2
    && r.responses[0] == BeginReply(snapshot, id)
    && r.responses[1].requestId == id
    && (r.responses[1].ack.accepted <==>
          forall i | 0 <= i < |contexts| ::
            IsRepeat(contexts[i], snapshot) || (IsNewer(contexts[i], snapshot) && answers[i].Adopts?))
    && forall i | 0 <= i < |contexts| ::
         && r.calls[i] == (if IsNewer(contexts[i], snapshot) && !answers[i].NoCommitter? then [request] else [])
         && !r.contexts[i].staging && r.contexts[i].keyHash == contexts[i].keyHash
         && (r.responses[1].ack.accepted ==> IsRepeat(r.contexts[i], snapshot))
  }

  lemma CommitsDelivered(
      contexts: seq<State>, request: CommitRequest, id: U64, answers: seq<Answer>, handled: seq<Handled>)
    requires |answers| == |contexts| == |handled| > 0
    requires forall i | 0 <= i < |contexts| :: CommitsTo(contexts[i], request.snapshot, request, answers[i], handled[i])
    ensures var r := Reacted(Command.TYPE_COMMIT, id, handled);
            Delivered(contexts, request, id, answers, r.(responses := [BeginReply(request.snapshot, id)] + r.responses))
  {
    FoldedMeansAll(Acks(handled));
    hide Folded;
  }

  function BeginReply(snapshot: Snapshot, id: U64): Response {
    Response(id, Ack(true, NONE, snapshot.appGeneration, snapshot.daemonGeneration, 0, 0))
  }

  /** Which generations the commit itself carries does not matter. */
  lemma CommitDelivered(
      w: World, contexts: seq<State>, bytes: Data, c: Command.Command, request: CommitRequest, id: U64,
      answers: seq<Answer>)
    requires c.Commit? && |answers| == |contexts| && AllReady(contexts, request.snapshot.deviceKeyHash)
    requires Sendable(request.snapshot, bytes) && Means(w, bytes, request)
    ensures var m := MetadataFor(request.snapshot, bytes);
            var r := FanOut(w, Staging(contexts, m, bytes), c, id, answers);
            Delivered(contexts, request, id, answers, r.(responses := [BeginReply(request.snapshot, id)] + r.responses))
  {
    hide PayloadCrc;
    hide Obeyed;
    hide Reacted;
    hide Delivered;
    hide DecodedSnapshot;
    hide DecodedStream;
    var m := MetadataFor(request.snapshot, bytes);
    var staging := Staging(contexts, m, bytes);
    var handled := AllObey(w, staging, c, answers);
    forall i | 0 <= i < |contexts|
      ensures CommitsTo(contexts[i], request.snapshot, request, answers[i], handled[i])
    {
      CommitOf(w, staging[i], bytes, c, request, answers[i]);
    }
    CommitsDelivered(contexts, request, id, answers, handled);
  }

  /** After the begin, the chunks and the commit come down to the commit of the staged bytes. */
  lemma StreamDelivered(
      w: World, contexts: seq<State>, snapshot: Snapshot, bytes: Data, id: U64, answers: seq<Answer>)
    requires |answers| == |contexts| > 0 && Sendable(snapshot, bytes)
    ensures Deliver(w, Staging(contexts, MetadataFor(snapshot, bytes), []), StreamFrames(snapshot, bytes, id), answers)
         == FanOut(w, Staging(contexts, MetadataFor(snapshot, bytes), bytes), CommitFor(snapshot), id, answers)
  {
    hide PayloadCrc;
    hide Receive;
    hide FanOut;
    hide CommandFrame;
    hide ChunkFrames;
    hide IsLowerHex64;
    var m := MetadataFor(snapshot, bytes);
    var staged, commit := Staging(contexts, m, bytes), CommandFrame(CommitFor(snapshot), id);
    assert bytes[..0] == [];
    ChunksDelivered(w, contexts, m, bytes, 0, id, answers, [commit]);
    ReceivesCommand(w, staged, CommitFor(snapshot), id, answers);
    DeliverOne(w, staged, commit, answers);
  }

  lemma DeliverOne(w: World, contexts: seq<State>, frame: Data, answers: seq<Answer>)
    requires |answers| == |contexts|
    ensures Deliver(w, contexts, [frame], answers) == Receive(w, contexts, frame, answers)
  {
    hide Receive;
    var r := Receive(w, contexts, frame, answers);
    assert r.responses + [] == r.responses;
    assert Joined(r.calls, Quiet(|contexts|)) == r.calls by {
      forall i | 0 <= i < |r.calls|
        ensures Joined(r.calls, Quiet(|contexts|))[i] == r.calls[i]
      {
      }
    }
    assert [frame][1..] == [];
  }

  /** A snapshot sent by the daemon to idle contexts on its route reaches every one of them, exactly once. */
  lemma TransferIsDelivered(
      w: World, contexts: seq<State>, bytes: Data, request: CommitRequest, id: U64, answers: seq<Answer>)
    requires |answers| == |contexts| && AllReady(contexts, request.snapshot.deviceKeyHash)
    requires Sendable(request.snapshot, bytes) && Means(w, bytes, request)
    ensures var r := Deliver(w, contexts, TransferFrames(request.snapshot, bytes, id), answers);
            Delivered(contexts, request, id, answers, r)
  {
    var snapshot := request.snapshot;
    LengthOfHash(snapshot.deviceKeyHash);
    hide PayloadCrc;
    hide Receive;
    hide FanOut;
    hide Deliver;
    hide Delivered;
    hide CommandFrame;
    hide StreamFrames;
    hide Means;
    hide IsLowerHex64;
    var m, begin := MetadataFor(snapshot, bytes), BeginFor(snapshot, bytes);
    BeginDelivered(w, contexts, snapshot, bytes, id, answers);
    ReceivesCommand(w, contexts, begin, id, answers);
    StreamDelivered(w, contexts, snapshot, bytes, id, answers);
    CommitDelivered(w, contexts, bytes, CommitFor(snapshot), request, id, answers);
    DeliverFirst(w, contexts, CommandFrame(begin, id), StreamFrames(snapshot, bytes, id), answers);
    JoinedQuiet(FanOut(w, Staging(contexts, m, bytes), CommitFor(snapshot), id, answers).calls);
  }

  lemma LengthOfHash(hash: Data)
    requires IsLowerHex64(hash)
    ensures |hash| == 64
  {
  }

  /** Every valid snapshot whose parameter streams decode arrives as it was sent. */
  lemma ValidSnapshotArrives(
      w: World, contexts: seq<State>, request: CommitRequest, id: U64, answers: seq<Answer>)
    requires |answers| == |contexts| && AllReady(contexts, request.snapshot.deviceKeyHash)
    requires IsValid(request.snapshot, w.hash)
    requires DecodedStream(w.catalog, request.snapshot.parameters) == Ok(request.parameters)
    requires DecodedStream(w.catalog, request.snapshot.iemParameters) == Ok(request.iemParameters)
    ensures Encodable(request.snapshot) && Sendable(request.snapshot, CanonicalWire(request.snapshot))
    ensures var frames := TransferFrames(request.snapshot, CanonicalWire(request.snapshot), id);
            Delivered(contexts, request, id, answers, Deliver(w, contexts, frames, answers))
  {
    SendableIfValid(request.snapshot, w.hash);
    SnapshotSchema.DecodeEncode(request.snapshot, w.hash);
    hide *;
    MeansIf(w, CanonicalWire(request.snapshot), request);
    TransferIsDelivered(w, contexts, CanonicalWire(request.snapshot), request, id, answers);
  }

  lemma MeansIf(w: World, bytes: Data, request: CommitRequest)
    requires DecodedSnapshot(bytes, w.hash) == Ok(request.snapshot)
    requires DecodedStream(w.catalog, request.snapshot.parameters) == Ok(request.parameters)
    requires DecodedStream(w.catalog, request.snapshot.iemParameters) == Ok(request.iemParameters)
    ensures Means(w, bytes, request)
  {
  }

  lemma SendableIfValid(snapshot: Snapshot, hash: Data -> Data)
    requires IsValid(snapshot, hash)
    ensures Encodable(snapshot) && Sendable(snapshot, CanonicalWire(snapshot))
  {
    ValidFits(snapshot, hash);
    EncodesExactlyValid(snapshot, hash);
    ValidWireLength(snapshot, hash);
    CanonicalLength(snapshot);
    ValidRoute(snapshot, hash);
    hide IsValid;
    hide CanonicalWire;
    hide EncodedSnapshot;
    hide IsLowerHex64;
  }

  lemma ValidRoute(snapshot: Snapshot, hash: Data -> Data)
    requires IsValid(snapshot, hash)
    ensures IsLowerHex64(snapshot.deviceKeyHash) && snapshot.appGeneration != 0 && snapshot.daemonGeneration != 0
  {
  }

  lemma CanonicalLength(snapshot: Snapshot)
    requires Encodable(snapshot)
    ensures |CanonicalWire(snapshot)| > 0
  {
    WireLength(snapshot, FlagByte(snapshot.masterEnabled), FlagByte(snapshot.globalMode), 0);
    hide Wire;
  }

  // ---------------------------------------------------------------- one begin

  /** A begin is accepted exactly when every context is idle and on the route; whether or not it is, each context that
      is on the route stages from now on. */
  lemma BeginAnswer(w: World, contexts: seq<State>, c: Command.Command, id: U64, answers: seq<Answer>)
    requires |answers| == |contexts| && c.Begin? && Command.Allowed(c)
    ensures var r := FanOut(w, contexts, c, id, answers);
            && |r.responses| == 1 && r.responses[0].requestId == id && r.calls == Quiet(|contexts|)
            && (r.responses[0].ack.accepted <==> AllReady(contexts, c.keyHash))
            && forall i | 0 <= i < |contexts| ::
                 r.contexts[i].staging <==> contexts[i].staging || contexts[i].keyHash == c.keyHash
  {
    hide PayloadCrc;
    hide AfterCommit;
    LengthOfHash(c.keyHash);
    hide IsLowerHex64;
    var handled := AllObey(w, contexts, c, answers);
    forall i | 0 <= i < |contexts|
      ensures handled[i].ack.accepted <==> !contexts[i].staging && contexts[i].keyHash == c.keyHash
      ensures handled[i].next.staging <==> contexts[i].staging || contexts[i].keyHash == c.keyHash
      ensures handled[i].call.None?
    {
    }
    FoldedMeansAll(Acks(handled));
  }

  // ---------------------------------------------------------------- the sender

  /** As much of `frames` as there is room for. */
  function Fitting(frames: seq<Data>, room: nat): (some: seq<Data>)
    ensures |some| <= room && |some| <= |frames| && (room >= |frames| ==> some == frames)
  {
    if room < |frames| then frames[..room] else frames
  }

  /** What the socket has taken before and after sending `frames` up to the first that it does not take. */
  ghost predicate Takes(before: seq<Data>, room: nat, after: seq<Data>, left: nat, frames: seq<Data>) {
    after == before + Fitting(frames, room) && left == room - |Fitting(frames, room)|
  }

  lemma TakesNothing(before: seq<Data>, room: nat)
    ensures Takes(before, room, before, room, [])
  {
  }

  /** Sending goes on only if the first frames all went. */
  lemma TakesMore(before: seq<Data>, room: nat, between: seq<Data>, left: nat, first: seq<Data>, second: seq<Data>)
    requires Takes(before, room, between, left, first)
    ensures room < |first| ==> Takes(before, room, between, left, first + second)
    ensures forall after, rest | |first| <= room && Takes(between, left, after, rest, second) ::
              Takes(before, room, after, rest, first + second)
  {
    if |first| <= room {
      forall after, rest | Takes(between, left, after, rest, second)
        ensures Takes(before, room, after, rest, first + second)
      {
        assert Fitting(first + second, room) == first + Fitting(second, left);
      }
    }
  }

  lemma NextFrame(frames: seq<Data>, k: nat, frame: Data, rest: seq<Data>)
    requires k <= |frames| && frames[k..] == [frame] + rest
    ensures k < |frames| && frames[k + 1..] == rest && frames[..k + 1] == frames[..k] + [frame]
  {
    assert frames[k] == frames[k..][0] && frames[k + 1..] == frames[k..][1..];
  }

  /** The daemon's side. What the driver answers to the begin and to the commit, if it does, is given, and so is how many
      frames the socket still takes; the first that it does not take ends the transfer. */
  class DaemonRuntime {
    const hash: Data -> Data
    var nextRequestId: U64
    var sent: seq<Data>
    var room: nat

    constructor (h: Data -> Data)
      ensures hash == h && nextRequestId == 1 && sent == []
    {
      hash, nextRequestId, sent := h, 1, [];
      room := 0;
    }

    /** What the daemon means to send: the begin, and the rest if that was accepted. */
    ghost function Wanted(snapshot: Snapshot, id: U64, begun: Option<bool>): (frames: seq<Data>)
      requires Encodable(snapshot) && Sendable(snapshot, CanonicalWire(snapshot))
      ensures frames != []
    {
      var frames := TransferFrames(snapshot, CanonicalWire(snapshot), id);
      if begun == Some(true) then frames else [frames[0]]
    }

    method ApplySnapshotToDriver(snapshot: Snapshot, begun: Option<bool>, committed: Option<bool>) returns (ok: bool)
      modifies this
      ensures EncodedSnapshot(snapshot, hash).Err? ==> !ok && unchanged(this)
      ensures EncodedSnapshot(snapshot, hash).Ok? ==>
                && Encodable(snapshot) && Sendable(snapshot, CanonicalWire(snapshot))
                && var wanted := Wanted(snapshot, old(nextRequestId), begun);
                && ok == (begun == Some(true) && committed == Some(true) && |wanted| <= old(room))
                && Takes(old(sent), old(room), sent, room, wanted)
                && nextRequestId == (old(nextRequestId) + 1) % 0x1_0000_0000_0000_0000
    {
      hide *;
      EncodesExactlyValid(snapshot, hash);
      var encoded := EncodeSnapshot(snapshot, hash);
      if encoded.Err? {
        return false;
      }
      SendableIfValid(snapshot, hash);
      SnapshotSchema.DecodeEncode(snapshot, hash);
      var requestId := nextRequestId;
      nextRequestId := (nextRequestId + 1) % 0x1_0000_0000_0000_0000;
      ok := SendTransfer(snapshot, encoded.value, requestId, begun);
      ok := ok && begun == Some(true) && committed == Some(true);
    }

    method SendTransfer(snapshot: Snapshot, bytes: Data, id: U64, begun: Option<bool>) returns (ok: bool)
      requires Encodable(snapshot) && bytes == CanonicalWire(snapshot) && Sendable(snapshot, bytes)
      modifies `sent, `room
      ensures var wanted := Wanted(snapshot, id, begun);
              Takes(old(sent), old(room), sent, room, wanted) && ok == (|wanted| <= old(room))
    {
      hide CanonicalWire;
      hide IsLowerHex64;
      hide PayloadCrc;
      hide CommandFrame;
      hide ChunkFrames;
      hide Takes;
      var begin, commit := CommandFrame(BeginFor(snapshot, bytes), id), CommandFrame(CommitFor(snapshot), id);
      ghost var chunks := ChunkFrames(bytes, 0, id);
      assert TransferFrames(snapshot, bytes, id) == [begin] + (chunks + [commit]);
      ok := Transmit(begin);
      if begun != Some(true) {
        return;
      }
      TakesMore(old(sent), old(room), sent, room, [begin], chunks + [commit]);
      if !ok {
        return;
      }
      ghost var begunSent, begunRoom := sent, room;
      ok := SendChunks(bytes, id);
      TakesMore(begunSent, begunRoom, sent, room, chunks, [commit]);
      if !ok {
        return;
      }
      ok := Transmit(commit);
    }

    method Transmit(frame: Data) returns (ok: bool)
      modifies `sent, `room
      ensures ok == (old(room) > 0)
      ensures Takes(old(sent), old(room), sent, room, [frame])
      ensures ok ==> room == old(room) - 1
    {
      ok := room > 0;
      if ok {
        sent := sent + [frame];
        room := room - 1;
      }
    }

    method SendChunks(bytes: Data, requestId: U64) returns (ok: bool)
      requires |bytes| <= MAX_SNAPSHOT_SIZE
      modifies `sent, `room
      ensures var frames := ChunkFrames(bytes, 0, requestId);
              && Takes(old(sent), old(room), sent, room, frames) && ok == (|frames| <= old(room))
              && (ok ==> room == old(room) - |frames|)
    {
      hide Takes;
      hide CommandFrame;
      var offset := 0;
      ghost var frames, k := ChunkFrames(bytes, 0, requestId), 0;
      TakesNothing(sent, room);
      assert frames[..0] == [] && frames[0..] == frames;
      while offset < |bytes|
        invariant 0 <= offset <= |bytes| && k <= |frames|
        invariant frames[k..] == ChunkFrames(bytes, offset, requestId)
        invariant Takes(old(sent), old(room), sent, room, frames[..k]) && room == old(room) - k
      {
        var end := ChunkEnd(bytes, offset);
        var frame := CommandFrame(Command.Chunk(offset, bytes[offset..end]), requestId);
        ghost var rest := ChunkFrames(bytes, end, requestId);
        NextFrame(frames, k, frame, rest);
        hide ChunkFrames;
        ghost var before, left := sent, room;
        ok := Transmit(frame);
        SendsNext(old(sent), old(room), before, left, sent, room, frames, k);
        if !ok {
          return;
        }
        k := k + 1;
        offset := end;
      }
      assert frames[..k] == frames;
      ok := true;
    }
  }

  lemma SendsNext(
      before: seq<Data>, room: nat, between: seq<Data>, left: nat, after: seq<Data>, rest: nat, frames: seq<Data>, k: nat)
    requires k < |frames| && Takes(before, room, between, left, frames[..k]) && left + k == room
    requires Takes(between, left, after, rest, [frames[k]])
    ensures left > 0 ==> Takes(before, room, after, rest, frames[..k + 1])
    ensures left == 0 ==> Takes(before, room, after, rest, frames)
  {
    assert frames[..k + 1] == frames[..k] + [frames[k]];
  }
}
