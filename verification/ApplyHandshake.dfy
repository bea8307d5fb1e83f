/**
  Daemon and driver together: the daemon's control loop, the driver's contexts, and between them a channel that may lose
  the driver's answers and, when the connection breaks, everything under way. The daemon transfers snapshots of its own,
  and relays and stores those of the App.
*/
module ApplyHandshake {
  import opened Bytes
  import opened Wrappers
  import opened ViperDaemonProtocol
  import opened SnapshotSchema
  import opened ParameterStream
  import Command = SnapshotCommand
  import Apply = SnapshotApply
  import opened SnapshotDelivery
  import opened AppStagings

  type World = Apply.World
  type Context = Apply.State
  type Answer = Apply.Answer
  type CommitRequest = Apply.CommitRequest

  const LAST_ID: nat := 0xFFFF_FFFF_FFFF_FFFF

  datatype Message = Message(id: U64, command: Command.Command)

  /** A command on its way to the driver. */
  type Sent = m: Message | Command.Allowed(m.command) witness Message(0, Command.Abort(0))

  /** Where the daemon's control loop stands. */
  datatype Phase =
    | Idle
    | AwaitBegin(id: U64, transfer: Transfer)
    | Streaming(id: U64, transfer: Transfer, offset: nat)
    | AwaitCommit(id: U64, transfer: Transfer)
    | AwaitRoute(id: U64)
    | AwaitRelay(id: U64, command: Command.Command)

  /** A commit that all contexts accepted: the contexts before and after, and what their committers were called with. */
  datatype Commit = Commit(id: U64, before: seq<Context>, calls: seq<seq<CommitRequest>>, after: seq<Context>)

  /** A snapshot of the App that was stored when the commit `id` had been accepted. */
  datatype Stored = Stored(id: U64, transfer: Transfer, held: bool)

  /**
    The two sides, the channel in both directions, the outcome captured by the last poll, the accepted commits so far,
    the transfers reported to have been accepted, the daemon's route, its copy of what the App streams, and what it
    stored. The App is `held` to what it streams while its begin was heard to be accepted and the daemon has streamed
    nothing of its own since.
  */
  datatype State = State(
    phase: Phase,
    nextId: nat,
    toDriver: seq<Sent>,
    toDaemon: seq<Response>,
    pending: Option<Response>,
    contexts: seq<Context>,
    commits: seq<Commit>,
    reported: map<U64, Transfer>,
    route: Data,
    app: AppStaging,
    held: bool,
    stored: seq<Stored>)

  const START := State(Idle, 1, [], [], None, [], [], map[], [], NOTHING, false, [])

  /** How sending a command goes: there may be no driver, which the daemon sees before it takes a request id. */
  datatype Attempt = Goes | Fails | Unconnected

  datatype Event =
    | Begin(snapshot: Snapshot, goes: bool)
    | Announce(goes: bool)
    | RouteChanges(keyHash: Data)
    | Relay(command: Command.Command, attempt: Attempt)
    | SendChunk
    | SendCommit
    | SendFails
    | Handle(answers: nat -> Answer, lost: bool)
    | Poll
    | Take
    | Timeout
    | Reconnect
    | Register
    | Unregister(k: nat)

  predicate IsTransfer(w: World, t: Transfer) {
    Sendable(t.snapshot, t.bytes) && DecodedSnapshot(t.bytes, w.hash) == Ok(t.snapshot)
  }

  /** The driver obeys the oldest command in every context and answers it, unless it is a chunk they all accept; the
      answer may be lost. */
  function Handled(w: World, s: State, answers: nat -> Answer, lost: bool): State
    requires s.toDriver != []
  {
    var m := s.toDriver[0];
    var r := Receive(w, s.contexts, CommandFrame(m.command, m.id), First(answers, |s.contexts|));
    s.(toDriver := s.toDriver[1..], contexts := r.contexts,
       toDaemon := s.toDaemon + if lost then [] else r.responses,
       commits := if m.command.Commit? && AllAccepted(r)
                  then s.commits + [Commit(m.id, s.contexts, r.calls, r.contexts)] else s.commits)
  }

  predicate AllAccepted(r: Reaction) {
    r.responses != [] && r.responses[0].ack.accepted
  }

  /** The daemon takes the captured outcome; one with another id is dropped and it goes on waiting. A transfer of its own
      that may be streamed ends its hold on the App's. */
  function Taken(w: World, s: State): State {
    var t := s.(pending := None);
    match s.phase
    case Idle => s
    case Streaming(_, _, _) => s
    case AwaitRoute(id) => if PendingFor(id, s.pending) == 1 then t.(phase := Idle) else t
    case AwaitBegin(id, transfer) =>
      if PendingFor(id, s.pending) == 1
        then if s.pending.value.ack.accepted then t.(phase := Streaming(id, transfer, 0), held := false)
             else t.(phase := Idle)
      else t
    case AwaitCommit(id, transfer) =>
      if PendingFor(id, s.pending) == 1
        then t.(phase := Idle,
                reported := if s.pending.value.ack.accepted then s.reported[id := transfer] else s.reported)
      else t
    case AwaitRelay(id, c) =>
      if PendingFor(id, s.pending) == 1 then Relayed(w, t, s.pending.value.ack.accepted) else t
  }

  /** The end of relaying a command of the App: an accepted commit stores the daemon's copy, and a refused command, or an
      abort, drops it. */
  function Relayed(w: World, s: State, accepted: bool): State
    requires s.phase.AwaitRelay?
  {
    var t := s.(phase := Idle);
    match s.phase.command
    case Begin(_, _, _, _, _, _) => if accepted then t.(held := true) else Forgotten(t)
    case Commit(_, _) => if accepted then AppStored(w, t, s.phase.id) else Forgotten(t)
    case Chunk(_, _) => if accepted then t else Forgotten(t)
    case Abort(_) => Forgotten(t)
    case Route(_, _) => if accepted then t else Forgotten(t)
  }

  function Forgotten(s: State): State {
    s.(app := Cleared(s.app), held := false)
  }

  function AppStored(w: World, s: State, id: U64): State {
    var complete := Complete(s.app, s.route, w.hash);
    Forgotten(s).(stored := if complete.Some? then s.stored + [Stored(id, complete.value, s.held)] else s.stored)
  }

  /** A command of the App is kept and relayed, with the payload it came with, which is what encoding it gives. If it
      cannot be sent the daemon refuses it and keeps its copy. */
  function Relaying(s: State, c: Command.Command, attempt: Attempt): State {
    if s.phase != Idle || s.nextId >= LAST_ID || !Command.Allowed(c) || c.Route? then s
    else
      var app := Kept(s.app, c);
      var t := s.(app := app, held := s.held && app.staging && !c.Begin?);
      match attempt
      case Unconnected => t
      case Fails => t.(nextId := s.nextId + 1)
      case Goes =>
        t.(nextId := s.nextId + 1, toDriver := s.toDriver + [Message(s.nextId, c)],
           phase := if c.Chunk? then Idle else AwaitRelay(s.nextId, c))
  }

  function BeginMessage(t: Transfer, id: U64): Sent
    requires Sendable(t.snapshot, t.bytes)
  {
    Message(id, BeginFor(t.snapshot, t.bytes))
  }

  /** A command is sent under the next request id, which does not wrap here; if it cannot be sent the id is used up. */
  function Begun(w: World, s: State, snapshot: Snapshot, goes: bool): State {
    match EncodedSnapshot(snapshot, w.hash)
    case Err(_) => s
    case Ok(bytes) => if goes then Started(s, Transfer(snapshot, bytes)) else Skipped(s)
  }

  function Started(s: State, t: Transfer): State {
    if s.phase != Idle || s.nextId >= LAST_ID || !Sendable(t.snapshot, t.bytes) then s
    else s.(phase := AwaitBegin(s.nextId, t), nextId := s.nextId + 1,
            toDriver := s.toDriver + [BeginMessage(t, s.nextId)])
  }

  function Skipped(s: State): State {
    if s.phase != Idle || s.nextId >= LAST_ID then s else s.(nextId := s.nextId + 1)
  }

  function Announced(s: State): State {
    if s.phase != Idle || s.nextId >= LAST_ID || !Command.Allowed(RouteFor(s.route)) then s
    else s.(phase := AwaitRoute(s.nextId), nextId := s.nextId + 1,
            toDriver := s.toDriver + [Message(s.nextId, RouteFor(s.route))])
  }

  /** The wait ends without an answer; what waited for the App counts as refused. */
  function TimedOut(w: World, s: State): State {
    match s.phase
    case AwaitRelay(_, _) => Relayed(w, s, false)
    case Streaming(_, _, _) => s
    case _ => s.(phase := Idle)
  }

  function Chunked(s: State): State {
    if !s.phase.Streaming? || s.phase.offset >= |s.phase.transfer.bytes| || s.phase.offset > MAX_SNAPSHOT_SIZE then s
    else
      var Streaming(id, t, offset) := s.phase;
      var end := ChunkEnd(t.bytes, offset);
      s.(phase := Streaming(id, t, end),
         toDriver := s.toDriver + [Message(id, Command.Chunk(offset, t.bytes[offset..end]))])
  }

  function Ended(s: State): State {
    if !s.phase.Streaming? || s.phase.offset < |s.phase.transfer.bytes|
       || !Command.Allowed(CommitFor(s.phase.transfer.snapshot)) then s
    else s.(phase := AwaitCommit(s.phase.id, s.phase.transfer),
            toDriver := s.toDriver + [Message(s.phase.id, CommitFor(s.phase.transfer.snapshot))])
  }

  function Polled(s: State): State {
    if s.toDaemon == [] then s else s.(toDaemon := s.toDaemon[1..], pending := Some(s.toDaemon[0]))
  }

  /** One step; a step that cannot be taken changes nothing. */
  function Next(w: World, s: State, e: Event): State {
    match e
    case Begin(snapshot, goes) => Begun(w, s, snapshot, goes)
    case Announce(goes) => if goes then Announced(s) else Skipped(s)
    case RouteChanges(keyHash) => s.(route := keyHash)
    case Relay(c, attempt) => Relaying(s, c, attempt)
    case SendChunk => Chunked(s)
    case SendCommit => Ended(s)
    case SendFails => if s.phase.Streaming? then s.(phase := Idle) else s
    case Handle(answers, lost) => if s.toDriver == [] then s else Handled(w, s, answers, lost)
    case Poll => Polled(s)
    case Take => Taken(w, s)
    case Timeout => TimedOut(w, s)
    case Reconnect => s.(toDriver := [], toDaemon := [])
    case Register => s.(contexts := s.contexts + [Apply.INITIAL])
    case Unregister(k) =>
      if k < |s.contexts| then s.(contexts := s.contexts[..k] + s.contexts[k + 1..]) else s
  }

  function Run(w: World, start: State, events: seq<Event>): State {
    if events == [] then start else Next(w, Run(w, start, events[..|events| - 1]), events[|events| - 1])
  }

  // ---------------------------------------------------------------- what a commit means

  /** Context `i` took the transfer: it had this very snapshot already and its committer was not called, or it was older
      and its committer was called once, with exactly this snapshot. */
  ghost predicate TookIt(w: World, t: Transfer, before: Context, calls: seq<CommitRequest>, after: Context) {
    && IsRepeat(after, t.snapshot)
    && ((IsRepeat(before, t.snapshot) && calls == [])
        || (IsNewer(before, t.snapshot) && |calls| == 1 && Means(w, t.bytes, calls[0]) && calls[0].snapshot == t.snapshot))
  }

  /** Context `i` took what it had staged, which decodes. */
  ghost predicate TookStaged(w: World, before: Context, calls: seq<CommitRequest>, after: Context) {
    && DecodedSnapshot(before.staged, w.hash).Ok?
    && TookIt(w, Transfer(DecodedSnapshot(before.staged, w.hash).value, before.staged), before, calls, after)
  }

  /** Every context took what it had staged, which was the front of `bytes`. */
  ghost predicate AllTookFront(w: World, bytes: Data, c: Commit) {
    && 0 < |c.before| == |c.calls| == |c.after|
    && forall i | 0 <= i < |c.before| :: c.before[i].staged <= bytes && TookStaged(w, c.before[i], c.calls[i], c.after[i])
  }

  ghost predicate WasTaken(w: World, s: State, id: U64, bytes: Data) {
    exists j: nat :: j < |s.commits| && s.commits[j].id == id && AllTookFront(w, bytes, s.commits[j])
  }

  /** Since no snapshot is the front of another, they took `bytes` itself if that decodes. */
  lemma TookFrontTookAll(w: World, t: Transfer, c: Commit)
    requires AllTookFront(w, t.bytes, c) && DecodedSnapshot(t.bytes, w.hash) == Ok(t.snapshot)
    ensures AllTookIt(w, t, c)
  {
    hide DecodedSnapshot;
    hide TookIt;
    forall i | 0 <= i < |c.before|
      ensures TookIt(w, t, c.before[i], c.calls[i], c.after[i])
    {
      DecodedIsPrefixFree(c.before[i].staged, t.bytes, w.hash);
    }
  }

  ghost predicate AllTookIt(w: World, t: Transfer, c: Commit) {
    && 0 < |c.before| == |c.calls| == |c.after|
    && forall i | 0 <= i < |c.before| :: TookIt(w, t, c.before[i], c.calls[i], c.after[i])
  }

  ghost predicate WasCommitted(w: World, s: State, id: U64, t: Transfer) {
    exists j: nat :: j < |s.commits| && s.commits[j].id == id && AllTookIt(w, t, s.commits[j])
  }

  /** A staging context stages the front of this transfer. */
  ghost predicate StagesFront(c: Context, t: Transfer)
    requires |t.bytes| <= MAX_SNAPSHOT_SIZE
  {
    c.staging ==> c.metadata == MetadataFor(t.snapshot, t.bytes) && c.staged <= t.bytes
  }

  /** A commit ends staging, and one that is accepted means that the staged snapshot was taken. */
  lemma AcceptedIsTaken(w: World, c: Context, app: U64, daemon: U64, answer: Answer)
    ensures var h := Obeyed(w, c, Command.Commit(app, daemon), answer);
            && !h.next.staging
            && (h.ack.accepted ==> c.staging && TookStaged(w, c, Called(h.call), h.next))
            && (h.ack.accepted ==> |c.staged| == c.metadata.totalSize)
  {
    hide DecodedSnapshot;
    hide DecodedStream;
    hide PayloadCrc;
  }

  lemma AcceptedCommit(w: World, c: Context, t: Transfer, answer: Answer)
    requires IsTransfer(w, t) && StagesFront(c, t)
    ensures var h := Obeyed(w, c, CommitFor(t.snapshot), answer);
            && !h.next.staging
            && (h.ack.accepted ==> TookIt(w, t, c, Called(h.call), h.next))
  {
    hide DecodedSnapshot;
    hide Obeyed;
    hide TookIt;
    hide PayloadCrc;
    hide IsLowerHex64;
    AcceptedIsTaken(w, c, t.snapshot.appGeneration, t.snapshot.daemonGeneration, answer);
    assert |c.staged| == |t.bytes| && c.staged <= t.bytes ==> c.staged == t.bytes;
  }

  lemma ObeysChunk(w: World, c: Context, t: Transfer, offset: nat, end: nat, answer: Answer)
    requires Sendable(t.snapshot, t.bytes) && StagesFront(c, t) && offset <= end <= |t.bytes|
    ensures StagesFront(Obeyed(w, c, Command.Chunk(offset, t.bytes[offset..end]), answer).next, t)
  {
    hide PayloadCrc;
    hide Apply.AfterCommit;
    if c.staging && offset == |c.staged| {
      assert c.staged + t.bytes[offset..end] == t.bytes[..end];
    }
  }

  lemma ObeysBegin(w: World, c: Context, t: Transfer, answer: Answer)
    requires Sendable(t.snapshot, t.bytes)
    ensures var h := Obeyed(w, c, BeginFor(t.snapshot, t.bytes), answer);
            h.ack.accepted ==> StagesFront(h.next, t)
  {
    hide PayloadCrc;
    hide Apply.AfterCommit;
    hide IsLowerHex64;
  }

  /** What the context stages is the front of `bytes`. */
  predicate Follows(c: Context, bytes: Data) {
    c.staging ==> c.staged <= bytes
  }

  /** Any command but a chunk of something else keeps to the front of `bytes`. */
  lemma ObeysFollowing(w: World, c: Context, command: Command.Command, bytes: Data, answer: Answer)
    requires Follows(c, bytes) && (command.Chunk? ==> IsChunkOf(command, bytes))
    ensures Follows(Obeyed(w, c, command, answer).next, bytes)
  {
    hide Apply.AfterCommit;
    match command
    case Chunk(offset, data) =>
      if c.staging && offset == |c.staged| {
        assert c.staged + data == bytes[..offset + |data|];
      }
    case Commit(app, daemon) => AcceptedIsTaken(w, c, app, daemon, answer);
    case _ =>
  }

  /** An accepted begin stages nothing yet. */
  lemma ObeysAnyBegin(w: World, c: Context, command: Command.Command, answer: Answer)
    requires command.Begin?
    ensures var h := Obeyed(w, c, command, answer);
            h.ack.accepted ==> Follows(h.next, [])
  {
    hide Apply.AfterCommit;
  }

  // ---------------------------------------------------------------- the invariant

  function RepliesFor(id: U64, replies: seq<Response>): nat {
    if replies == [] then 0 else (if replies[0].requestId == id then 1 else 0) + RepliesFor(id, replies[1..])
  }

  function PendingFor(id: U64, pending: Option<Response>): nat {
    if pending.Some? && pending.value.requestId == id then 1 else 0
  }

  function InFlight(id: U64, s: State): nat {
    RepliesFor(id, s.toDaemon) + PendingFor(id, s.pending)
  }

  ghost predicate AllStageFront(contexts: seq<Context>, t: Transfer)
    requires |t.bytes| <= MAX_SNAPSHOT_SIZE
  {
    forall i | 0 <= i < |contexts| :: StagesFront(contexts[i], t)
  }

  ghost predicate IsAnswer(s: State, r: Response) {
    r in s.toDaemon || s.pending == Some(r)
  }

  /** Some answer with this id on its way accepts. */
  ghost predicate Accepts(s: State, id: U64) {
    exists r :: IsAnswer(s, r) && r.requestId == id && r.ack.accepted
  }

  /** A chunk of the transfer, or its commit. */
  ghost predicate IsPartOf(m: Message, id: U64, t: Transfer) {
    m.id == id && (m.command == CommitFor(t.snapshot) || IsChunkOf(m.command, t.bytes))
  }

  ghost predicate IsChunkOf(c: Command.Command, bytes: Data) {
    c.Chunk? && c.offset + |c.data| <= |bytes| && c.data == bytes[c.offset..c.offset + |c.data|]
  }

  ghost predicate AllFollow(contexts: seq<Context>, bytes: Data) {
    forall i | 0 <= i < |contexts| :: Follows(contexts[i], bytes)
  }

  /** While the App is held to what it streams, every context stages a front of the daemon's copy, and the chunks under
      way are cut from it. */
  ghost predicate HeldOk(s: State) {
    s.held ==>
      && AllFollow(s.contexts, s.app.bytes)
      && forall m <- s.toDriver | m.command.Chunk? :: IsChunkOf(m.command, s.app.bytes)
  }

  ghost predicate PhaseOk(w: World, s: State) {
    match s.phase
    case Idle => true
    case AwaitRoute(_) => true
    case AwaitBegin(id, t) =>
      && id < s.nextId && IsTransfer(w, t) && InFlight(id, s) <= 1
      && (s.toDriver != [] ==> InFlight(id, s) == 0 && LastIs(s.toDriver, Message(id, BeginFor(t.snapshot, t.bytes))))
      && (Accepts(s, id) ==> AllStageFront(s.contexts, t))
    case Streaming(id, t, offset) =>
      && id < s.nextId && IsTransfer(w, t) && AllStageFront(s.contexts, t) && !Accepts(s, id) && !s.held
      && forall m <- s.toDriver :: IsPartOf(m, id, t) && m.command.Chunk?
    case AwaitCommit(id, t) =>
      && id < s.nextId && IsTransfer(w, t) && AllStageFront(s.contexts, t)
      && (Accepts(s, id) ==> WasCommitted(w, s, id, t))
      && forall m <- s.toDriver :: IsPartOf(m, id, t)
    case AwaitRelay(id, c) =>
      && id < s.nextId && InFlight(id, s) <= 1
      && (s.toDriver != [] ==> InFlight(id, s) == 0 && LastIs(s.toDriver, Message(id, c)))
      && (c.Begin? ==> s.app.bytes == [] && (Accepts(s, id) ==> AllFollow(s.contexts, [])))
      && (c.Commit? && s.held && Accepts(s, id) ==> WasTaken(w, s, id, s.app.bytes))
  }

  /** The command is the last under way, and the only one with its id. */
  ghost predicate LastIs(toDriver: seq<Sent>, m: Message)
    requires toDriver != []
  {
    var n := |toDriver| - 1;
    toDriver[n] == m && forall i | 0 <= i < n :: toDriver[i].id != m.id
  }

  ghost predicate IdsOk(s: State) {
    && (forall m <- s.toDriver :: m.id < s.nextId)
    && (forall r | IsAnswer(s, r) :: r.requestId < s.nextId)
  }

  ghost predicate Inv(w: World, s: State) {
    IdsOk(s) && Reported(w, s) && PhaseOk(w, s) && HeldOk(s)
  }

  // ---------------------------------------------------------------- the driver's step

  /** What one command does: at most one answer, under its id, never an accepting one to a chunk. */
  ghost predicate Reacts(w: World, contexts: seq<Context>, m: Message, answers: seq<Answer>, r: Reaction)
    requires |answers| == |contexts|
  {
    && |r.contexts| == |r.calls| == |contexts| && |r.responses| <= 1
    && (forall i | 0 <= i < |contexts| :: ObeysAs(w, contexts[i], m, answers[i], r.contexts[i], r.calls[i]))
    && (r.responses != [] ==>
          && r.responses[0].requestId == m.id
          && (r.responses[0].ack.accepted ==>
                && !m.command.Chunk? && contexts != []
                && forall i | 0 <= i < |contexts| :: AcceptsIt(w, contexts[i], m, answers[i])))
  }

  ghost predicate ObeysAs(
      w: World, c: Context, m: Message, answer: Answer, after: Context, calls: seq<CommitRequest>)
  {
    var h := Obeyed(w, c, m.command, answer);
    after == h.next && calls == Called(h.call)
  }

  ghost predicate AcceptsIt(w: World, c: Context, m: Message, answer: Answer) {
    Obeyed(w, c, m.command, answer).ack.accepted
  }

  lemma ReceiveReacts(w: World, contexts: seq<Context>, m: Message, answers: seq<Answer>)
    requires |answers| == |contexts| && Command.Allowed(m.command)
    ensures Reacts(w, contexts, m, answers, Receive(w, contexts, CommandFrame(m.command, m.id), answers))
  {
    hide *;
    ReceivesCommand(w, contexts, m.command, m.id, answers);
    FanOutIsReacted(w, contexts, m, answers);
    ReactedReacts(w, contexts, m, answers, AllObey(w, contexts, m.command, answers));
  }

  lemma FanOutIsReacted(w: World, contexts: seq<Context>, m: Message, answers: seq<Answer>)
    requires |answers| == |contexts|
    ensures FanOut(w, contexts, m.command, m.id, answers)
         == Reacted(Command.TypeOf(m.command), m.id, AllObey(w, contexts, m.command, answers))
  {
    hide AllObey;
    hide Reacted;
  }

  lemma ReactedReacts(
      w: World, contexts: seq<Context>, m: Message, answers: seq<Answer>, handled: seq<Handled>)
    requires |answers| == |contexts| == |handled|
    requires forall i | 0 <= i < |contexts| :: handled[i] == Obeyed(w, contexts[i], m.command, answers[i])
    ensures Reacts(w, contexts, m, answers, Reacted(Command.TypeOf(m.command), m.id, handled))
  {
    hide Obeyed;
    ReactedFacts(Command.TypeOf(m.command), m.id, handled);
    hide Reacted;
  }

  lemma ReactedFacts(messageType: U16, id: U64, handled: seq<Handled>)
    ensures var r := Reacted(messageType, id, handled);
            && |r.responses| <= 1
            && (forall i | 0 <= i < |handled| ::
                  r.contexts[i] == handled[i].next && r.calls[i] == Called(handled[i].call))
            && (r.responses != [] ==>
                  && r.responses[0].requestId == id
                  && (r.responses[0].ack.accepted ==>
                        && messageType != Command.TYPE_CHUNK && handled != []
                        && forall i | 0 <= i < |handled| :: handled[i].ack.accepted))
  {
    FoldedMeansAll(Acks(handled));
    hide Folded;
  }

  lemma PartKeepsFront(w: World, contexts: seq<Context>, m: Message, answers: seq<Answer>, r: Reaction, t: Transfer)
    requires |answers| == |contexts| && Reacts(w, contexts, m, answers, r)
    requires IsTransfer(w, t) && IsPartOf(m, m.id, t) && AllStageFront(contexts, t)
    ensures AllStageFront(r.contexts, t)
  {
    hide Obeyed;
    hide IsTransfer;
    hide StagesFront;
    TransferIsSendable(w, t);
    forall i | 0 <= i < |contexts|
      ensures StagesFront(r.contexts[i], t)
    {
      assert ObeysAs(w, contexts[i], m, answers[i], r.contexts[i], r.calls[i]);
      if m.command.Chunk? {
        ObeysChunk(w, contexts[i], t, m.command.offset, m.command.offset + |m.command.data|, answers[i]);
      } else {
        AcceptedCommit(w, contexts[i], t, answers[i]);
        NotStaging(r.contexts[i], t);
      }
    }
  }

  lemma TransferIsSendable(w: World, t: Transfer)
    requires IsTransfer(w, t)
    ensures Sendable(t.snapshot, t.bytes)
  {
  }

  lemma NotStaging(c: Context, t: Transfer)
    requires !c.staging && |t.bytes| <= MAX_SNAPSHOT_SIZE
    ensures StagesFront(c, t)
  {
  }

  lemma BeginStagesFront(w: World, contexts: seq<Context>, m: Message, answers: seq<Answer>, r: Reaction, t: Transfer)
    requires |answers| == |contexts| && Reacts(w, contexts, m, answers, r)
    requires IsTransfer(w, t) && m.command == BeginFor(t.snapshot, t.bytes) && AllAccepted(r)
    ensures AllStageFront(r.contexts, t)
  {
    hide Obeyed;
    hide IsTransfer;
    hide StagesFront;
    TransferIsSendable(w, t);
    forall i | 0 <= i < |contexts|
      ensures StagesFront(r.contexts[i], t)
    {
      assert ObeysAs(w, contexts[i], m, answers[i], r.contexts[i], r.calls[i]);
      assert AcceptsIt(w, contexts[i], m, answers[i]);
      ObeysBegin(w, contexts[i], t, answers[i]);
    }
  }

  lemma BeginFollows(w: World, contexts: seq<Context>, m: Message, answers: seq<Answer>, r: Reaction)
    requires |answers| == |contexts| && Reacts(w, contexts, m, answers, r) && m.command.Begin? && AllAccepted(r)
    ensures AllFollow(r.contexts, [])
  {
    hide Obeyed;
    hide Follows;
    forall i | 0 <= i < |contexts|
      ensures Follows(r.contexts[i], [])
    {
      assert ObeysAs(w, contexts[i], m, answers[i], r.contexts[i], r.calls[i]);
      assert AcceptsIt(w, contexts[i], m, answers[i]);
      ObeysAnyBegin(w, contexts[i], m.command, answers[i]);
    }
  }

  lemma CommitTakesFront(
      w: World, contexts: seq<Context>, m: Message, answers: seq<Answer>, r: Reaction, bytes: Data)
    requires |answers| == |contexts| && Reacts(w, contexts, m, answers, r)
    requires m.command.Commit? && AllFollow(contexts, bytes) && AllAccepted(r)
    ensures AllTookFront(w, bytes, Commit(m.id, contexts, r.calls, r.contexts))
  {
    hide Obeyed;
    hide TookStaged;
    forall i | 0 <= i < |contexts|
      ensures contexts[i].staged <= bytes && TookStaged(w, contexts[i], r.calls[i], r.contexts[i])
    {
      assert ObeysAs(w, contexts[i], m, answers[i], r.contexts[i], r.calls[i]);
      assert AcceptsIt(w, contexts[i], m, answers[i]);
      AcceptedIsTaken(w, contexts[i], m.command.appGeneration, m.command.daemonGeneration, answers[i]);
    }
  }

  lemma CommitTakesIt(w: World, contexts: seq<Context>, m: Message, answers: seq<Answer>, r: Reaction, t: Transfer)
    requires |answers| == |contexts| && Reacts(w, contexts, m, answers, r)
    requires IsTransfer(w, t) && m.command == CommitFor(t.snapshot) && AllStageFront(contexts, t) && AllAccepted(r)
    ensures AllTookIt(w, t, Commit(m.id, contexts, r.calls, r.contexts))
  {
    hide Obeyed;
    hide IsTransfer;
    hide StagesFront;
    hide TookIt;
    TransferIsSendable(w, t);
    forall i | 0 <= i < |contexts|
      ensures TookIt(w, t, contexts[i], r.calls[i], r.contexts[i])
    {
      assert ObeysAs(w, contexts[i], m, answers[i], r.contexts[i], r.calls[i]);
      assert AcceptsIt(w, contexts[i], m, answers[i]);
      AcceptedCommit(w, contexts[i], t, answers[i]);
    }
  }

  // ---------------------------------------------------------------- every step keeps the invariant

  lemma {:induction false} RepliesAppend(id: U64, a: seq<Response>, r: Response)
    ensures RepliesFor(id, a + [r]) == RepliesFor(id, a) + if r.requestId == id then 1 else 0
  {
    if a != [] {
      assert (a + [r])[1..] == a[1..] + [r];
      RepliesAppend(id, a[1..], r);
    }
  }

  lemma {:induction false} NoReplies(id: U64, replies: seq<Response>)
    ensures RepliesFor(id, replies) == 0 <==> forall r <- replies :: r.requestId != id
  {
    if replies != [] {
      NoReplies(id, replies[1..]);
      assert replies == [replies[0]] + replies[1..];
    }
  }

  lemma NotInFlight(s: State, id: U64)
    ensures InFlight(id, s) == 0 <==> forall r | IsAnswer(s, r) :: r.requestId != id
  {
    NoReplies(id, s.toDaemon);
    if InFlight(id, s) == 0 {
      forall r | IsAnswer(s, r)
        ensures r.requestId != id
      {
      }
    } else {
      if PendingFor(id, s.pending) == 0 {
        var r :| r in s.toDaemon && r.requestId == id;
        assert IsAnswer(s, r);
      } else {
        assert IsAnswer(s, s.pending.value);
      }
    }
  }

  /** Commits are only added. */
  lemma CommitsStay(w: World, s: State, n: State, id: U64, t: Transfer)
    requires s.commits <= n.commits && WasCommitted(w, s, id, t)
    ensures WasCommitted(w, n, id, t)
  {
    hide AllTookIt;
    var j: nat :| j < |s.commits| && s.commits[j].id == id && AllTookIt(w, t, s.commits[j]);
    assert n.commits[j] == s.commits[j];
  }

  /** What was reported, and what was stored while the App was held to it, was committed. */
  ghost predicate Reported(w: World, s: State) {
    && (forall id <- s.reported :: WasCommitted(w, s, id, s.reported[id]))
    && (forall j | 0 <= j < |s.stored| && s.stored[j].held :: WasCommitted(w, s, s.stored[j].id, s.stored[j].transfer))
  }

  lemma ReportedStays(w: World, s: State, n: State)
    requires Reported(w, s) && s.commits <= n.commits && n.reported == s.reported && n.stored == s.stored
    ensures Reported(w, n)
  {
    hide WasCommitted;
    forall id | id in n.reported
      ensures WasCommitted(w, n, id, n.reported[id])
    {
      CommitsStay(w, s, n, id, s.reported[id]);
    }
    forall j | 0 <= j < |n.stored| && n.stored[j].held
      ensures WasCommitted(w, n, n.stored[j].id, n.stored[j].transfer)
    {
      CommitsStay(w, s, n, s.stored[j].id, s.stored[j].transfer);
    }
  }

  lemma TakenStays(w: World, s: State, n: State, id: U64, bytes: Data)
    requires s.commits <= n.commits && WasTaken(w, s, id, bytes)
    ensures WasTaken(w, n, id, bytes)
  {
    hide AllTookFront;
    var j: nat :| j < |s.commits| && s.commits[j].id == id && AllTookFront(w, bytes, s.commits[j]);
    assert n.commits[j] == s.commits[j];
  }

  /** The driver's step in terms of the reaction alone. */
  ghost predicate HandledBy(s: State, n: State, m: Message, r: Reaction, lost: bool) {
    && s.toDriver != [] && m == s.toDriver[0] && n.phase == s.phase && n.nextId == s.nextId && n.pending == s.pending
    && n.reported == s.reported && n.toDriver == s.toDriver[1..] && n.contexts == r.contexts
    && n.app == s.app && n.held == s.held && n.stored == s.stored
    && n.toDaemon == s.toDaemon + (if lost then [] else r.responses)
    && n.commits == if m.command.Commit? && AllAccepted(r)
                    then s.commits + [Commit(m.id, s.contexts, r.calls, r.contexts)] else s.commits
  }

  lemma HandledIsHandledBy(w: World, s: State, answers: nat -> Answer, lost: bool) returns (m: Sent, r: Reaction)
    requires s.toDriver != []
    ensures HandledBy(s, Handled(w, s, answers, lost), m, r, lost)
    ensures Reacts(w, s.contexts, m, First(answers, |s.contexts|), r)
  {
    m := s.toDriver[0];
    r := Receive(w, s.contexts, CommandFrame(m.command, m.id), First(answers, |s.contexts|));
    ReceiveReacts(w, s.contexts, m, First(answers, |s.contexts|));
    hide Receive;
    hide CommandFrame;
    hide Reacts;
    hide First;
  }

  /** Of a reaction, what the channel sees. */
  ghost predicate AnswersOnly(r: Reaction, id: U64) {
    |r.responses| <= 1 && (r.responses != [] ==> r.responses[0].requestId == id)
  }

  lemma HandleAwaitBegin(w: World, s: State, n: State, m: Message, r: Reaction, lost: bool)
    requires PhaseOk(w, s) && s.phase.AwaitBegin? && HandledBy(s, n, m, r, lost) && AnswersOnly(r, m.id)
    requires |s.toDriver| == 1 && AllAccepted(r) ==> AllStageFront(r.contexts, s.phase.transfer)
    ensures PhaseOk(w, n)
  {
    hide IsTransfer;
    hide AllStageFront;
    var AwaitBegin(id, t) := s.phase;
    NotInFlight(s, id);
    assert s.toDaemon + [] == s.toDaemon;
    if r.responses != [] {
      assert r.responses == [r.responses[0]];
      RepliesAppend(id, s.toDaemon, r.responses[0]);
    }
    hide InFlight;
    NotInFlight(n, id);
  }

  lemma HandleAwaitRelay(w: World, s: State, n: State, m: Message, r: Reaction, lost: bool)
    requires PhaseOk(w, s) && s.phase.AwaitRelay? && HandledBy(s, n, m, r, lost) && AnswersOnly(r, m.id)
    requires |s.toDriver| == 1 && AllAccepted(r) && m.command.Begin? ==> AllFollow(r.contexts, [])
    requires |s.toDriver| == 1 && AllAccepted(r) && m.command.Commit? && s.held ==>
               AllTookFront(w, s.app.bytes, Commit(m.id, s.contexts, r.calls, r.contexts))
    ensures PhaseOk(w, n)
  {
    hide AllFollow;
    hide AllTookFront;
    var AwaitRelay(id, c) := s.phase;
    NotInFlight(s, id);
    assert s.toDaemon + [] == s.toDaemon;
    if r.responses != [] {
      assert r.responses == [r.responses[0]];
      RepliesAppend(id, s.toDaemon, r.responses[0]);
    }
    hide InFlight;
    NotInFlight(n, id);
    if |s.toDriver| == 1 && AllAccepted(r) && c.Commit? {
      assert n.commits[|s.commits|].id == id;
    }
  }

  lemma HandleStreaming(w: World, s: State, n: State, m: Message, r: Reaction, lost: bool)
    requires PhaseOk(w, s) && s.phase.Streaming? && HandledBy(s, n, m, r, lost)
    requires AllStageFront(r.contexts, s.phase.transfer) && !AllAccepted(r) && |r.responses| <= 1
    ensures PhaseOk(w, n)
  {
    hide IsTransfer;
    hide AllStageFront;
    hide IsPartOf;
  }

  lemma HandleAwaitCommit(w: World, s: State, n: State, m: Message, r: Reaction, lost: bool)
    requires PhaseOk(w, s) && s.phase.AwaitCommit? && HandledBy(s, n, m, r, lost)
    requires AllStageFront(r.contexts, s.phase.transfer) && |r.responses| <= 1 && m.id == s.phase.id
    requires AllAccepted(r) ==>
               m.command.Commit? && AllTookIt(w, s.phase.transfer, Commit(m.id, s.contexts, r.calls, r.contexts))
    ensures PhaseOk(w, n)
  {
    hide IsTransfer;
    hide AllStageFront;
    hide IsPartOf;
    hide AllTookIt;
    var AwaitCommit(id, t) := s.phase;
    if AllAccepted(r) {
      assert n.commits[|s.commits|].id == id;
    }
    if Accepts(s, id) {
      CommitsStay(w, s, n, id, t);
    }
  }

  lemma ReactsAnswers(w: World, contexts: seq<Context>, m: Message, answers: seq<Answer>, r: Reaction)
    requires |answers| == |contexts| && Reacts(w, contexts, m, answers, r)
    ensures AnswersOnly(r, m.id) && (m.command.Chunk? ==> !AllAccepted(r))
  {
    hide ObeysAs;
    hide AcceptsIt;
  }

  /** What the phase says of the command at the head of the queue. */
  lemma HeadOfPhase(w: World, s: State)
    requires PhaseOk(w, s) && s.toDriver != []
    ensures var m := s.toDriver[0];
            match s.phase
            case AwaitBegin(id, t) =>
              IsTransfer(w, t)
              && (|s.toDriver| == 1 ==> |t.bytes| <= MAX_SNAPSHOT_SIZE && m.command == BeginFor(t.snapshot, t.bytes))
            case Streaming(id, t, _) =>
              IsTransfer(w, t) && AllStageFront(s.contexts, t) && IsPartOf(m, id, t) && m.id == id && m.command.Chunk?
            case AwaitCommit(id, t) =>
              IsTransfer(w, t) && AllStageFront(s.contexts, t) && IsPartOf(m, id, t) && m.id == id
              && (m.command.Chunk? || m.command == CommitFor(t.snapshot))
            case AwaitRelay(id, c) => |s.toDriver| == 1 ==> m.command == c && m.id == id
            case _ => true
  {
    hide AllStageFront;
    hide Accepts;
    assert s.toDriver[0] in s.toDriver;
  }

  lemma HandleKeepsPhase(w: World, s: State, answers: nat -> Answer, lost: bool)
    requires PhaseOk(w, s) && HeldOk(s) && s.toDriver != []
    ensures PhaseOk(w, Handled(w, s, answers, lost))
  {
    hide *;
    var n, some := Handled(w, s, answers, lost), First(answers, |s.contexts|);
    var m, r := HandledIsHandledBy(w, s, answers, lost);
    HandledByMeans(s, n, m, r, lost);
    ReactsAnswers(w, s.contexts, m, some, r);
    HeadOfPhase(w, s);
    match s.phase
    case AwaitBegin(id, t) =>
      if |s.toDriver| == 1 && AllAccepted(r) {
        BeginStagesFront(w, s.contexts, m, some, r, t);
      }
      HandleAwaitBegin(w, s, n, m, r, lost);
    case Streaming(id, t, offset) =>
      PartKeepsFront(w, s.contexts, m, some, r, t);
      AtMostOne(r, m.id);
      HandleStreaming(w, s, n, m, r, lost);
    case AwaitCommit(id, t) =>
      PartKeepsFront(w, s.contexts, m, some, r, t);
      if AllAccepted(r) {
        CommitTakesIt(w, s.contexts, m, some, r, t);
        CommitIsCommit(t.snapshot);
      }
      AtMostOne(r, m.id);
      HandleAwaitCommit(w, s, n, m, r, lost);
    case AwaitRelay(id, c) =>
      if AllAccepted(r) && c.Begin? && |s.toDriver| == 1 {
        BeginFollows(w, s.contexts, m, some, r);
      }
      if AllAccepted(r) && c.Commit? && s.held && |s.toDriver| == 1 {
        HeldMeans(s);
        CommitTakesFront(w, s.contexts, m, some, r, s.app.bytes);
      }
      HandleAwaitRelay(w, s, n, m, r, lost);
    case Idle => IdleIsOk(w, n);
    case AwaitRoute(_) => IdleIsOk(w, n);
  }

  lemma HandledByMeans(s: State, n: State, m: Message, r: Reaction, lost: bool)
    requires HandledBy(s, n, m, r, lost)
    ensures s.toDriver != [] && m == s.toDriver[0] && n.phase == s.phase && s.commits <= n.commits
    ensures n.reported == s.reported && n.nextId == s.nextId && n.stored == s.stored
  {
  }

  lemma AtMostOne(r: Reaction, id: U64)
    requires AnswersOnly(r, id)
    ensures |r.responses| <= 1
  {
  }

  lemma CommitIsCommit(snapshot: Snapshot)
    ensures CommitFor(snapshot).Commit?
  {
  }

  lemma IdleIsOk(w: World, s: State)
    requires s.phase.Idle? || s.phase.AwaitRoute?
    ensures PhaseOk(w, s)
  {
  }

  lemma HandleKeepsInv(w: World, s: State, answers: nat -> Answer, lost: bool)
    requires Inv(w, s) && s.toDriver != []
    ensures Inv(w, Handled(w, s, answers, lost))
  {
    InvParts(w, s);
    hide *;
    var n := Handled(w, s, answers, lost);
    HandleKeepsPhase(w, s, answers, lost);
    var m, r := HandledIsHandledBy(w, s, answers, lost);
    ReactsAnswers(w, s.contexts, m, First(answers, |s.contexts|), r);
    HandledByMeans(s, n, m, r, lost);
    HandleKeepsIds(s, n, m, r, lost);
    HandleKeepsHeld(w, s, n, m, First(answers, |s.contexts|), r, lost);
    ReportedStays(w, s, n);
    PartsInv(w, n);
  }

  lemma HeldMeans(s: State)
    requires HeldOk(s) && s.held
    ensures AllFollow(s.contexts, s.app.bytes)
  {
  }

  lemma HandleKeepsHeld(
      w: World, s: State, n: State, m: Message, answers: seq<Answer>, r: Reaction, lost: bool)
    requires HeldOk(s) && HandledBy(s, n, m, r, lost)
    requires |answers| == |s.contexts| && Reacts(w, s.contexts, m, answers, r)
    ensures HeldOk(n)
  {
    hide Follows;
    hide Obeyed;
    hide IsChunkOf;
    if s.held {
      assert m in s.toDriver;
      forall i | 0 <= i < |r.contexts|
        ensures Follows(r.contexts[i], s.app.bytes)
      {
        assert ObeysAs(w, s.contexts[i], m, answers[i], r.contexts[i], r.calls[i]);
        ObeysFollowing(w, s.contexts[i], m.command, s.app.bytes, answers[i]);
      }
    }
  }

  lemma HandleKeepsIds(s: State, n: State, m: Message, r: Reaction, lost: bool)
    requires IdsOk(s) && HandledBy(s, n, m, r, lost) && AnswersOnly(r, m.id)
    ensures IdsOk(n)
  {
    assert m in s.toDriver;
  }

  lemma InvParts(w: World, s: State)
    requires Inv(w, s)
    ensures IdsOk(s) && Reported(w, s) && PhaseOk(w, s) && HeldOk(s)
  {
  }

  lemma PartsInv(w: World, s: State)
    requires IdsOk(s) && Reported(w, s) && PhaseOk(w, s) && HeldOk(s)
    ensures Inv(w, s)
  {
  }

  lemma EncodedIsTransfer(w: World, snapshot: Snapshot)
    requires EncodedSnapshot(snapshot, w.hash).Ok?
    ensures IsTransfer(w, Transfer(snapshot, EncodedSnapshot(snapshot, w.hash).value))
  {
    hide *;
    EncodesExactlyValid(snapshot, w.hash);
    SnapshotSchema.DecodeEncode(snapshot, w.hash);
    SendableIfValid(snapshot, w.hash);
    TransferIf(w, Transfer(snapshot, CanonicalWire(snapshot)));
  }

  lemma TransferIf(w: World, t: Transfer)
    requires Sendable(t.snapshot, t.bytes) && DecodedSnapshot(t.bytes, w.hash) == Ok(t.snapshot)
    ensures IsTransfer(w, t)
  {
  }

  lemma StartedKeepsInv(w: World, s: State, t: Transfer)
    requires Inv(w, s) && IsTransfer(w, t)
    ensures Inv(w, Started(s, t))
  {
    TransferIsSendable(w, t);
    hide IsTransfer;
    hide IsLowerHex64;
    ReportedStays(w, s, Started(s, t));
    hide Reported;
    if Started(s, t) != s {
      StartedPhase(w, s, t);
      hide PhaseOk;
      hide IsAnswer;
    }
  }

  lemma StartedPhase(w: World, s: State, t: Transfer)
    requires IdsOk(s) && IsTransfer(w, t) && s.phase.Idle? && s.nextId < LAST_ID && Sendable(t.snapshot, t.bytes)
    ensures PhaseOk(w, Started(s, t))
  {
    var n := Started(s, t);
    hide IsTransfer;
    hide IsLowerHex64;
    hide AllStageFront;
    NotInFlight(s, n.phase.id);
    hide InFlight;
    NotInFlight(n, n.phase.id);
    assert InFlight(n.phase.id, n) == 0;
  }

  lemma AnnouncedKeepsInv(w: World, s: State)
    requires Inv(w, s)
    ensures Inv(w, Announced(s))
  {
    hide IsTransfer;
    hide IsLowerHex64;
    ReportedStays(w, s, Announced(s));
    hide Reported;
  }

  lemma ChunkedKeepsInv(w: World, s: State)
    requires Inv(w, s)
    ensures Inv(w, Chunked(s))
  {
    hide IsTransfer;
    hide IsLowerHex64;
    hide AllStageFront;
    ReportedStays(w, s, Chunked(s));
    hide Reported;
  }

  lemma EndedKeepsInv(w: World, s: State)
    requires Inv(w, s)
    ensures Inv(w, Ended(s))
  {
    hide IsTransfer;
    hide IsLowerHex64;
    hide AllStageFront;
    ReportedStays(w, s, Ended(s));
    hide Reported;
  }

  /** What is left when some answers, and perhaps all commands, are gone. */
  ghost predicate HasLess(s: State, n: State) {
    && n.phase == s.phase && n.nextId == s.nextId && n.contexts == s.contexts
    && n.commits == s.commits && n.reported == s.reported
    && n.app == s.app && n.held == s.held && n.stored == s.stored
    && (n.toDriver == s.toDriver || n.toDriver == [])
    && (forall r | IsAnswer(n, r) :: IsAnswer(s, r))
    && (forall id :: InFlight(id, n) <= InFlight(id, s))
  }

  lemma LessKeepsInv(w: World, s: State, n: State)
    requires Inv(w, s) && HasLess(s, n)
    ensures Inv(w, n)
  {
    ReportedStays(w, s, n);
    LessKeepsPhase(w, s, n);
    hide PhaseOk;
    hide Reported;
    hide IsAnswer;
    hide InFlight;
  }

  lemma LessKeepsPhase(w: World, s: State, n: State)
    requires PhaseOk(w, s) && HasLess(s, n)
    ensures PhaseOk(w, n)
  {
    hide IsTransfer;
    hide AllStageFront;
    hide IsPartOf;
    hide IsAnswer;
    hide InFlight;
    hide AllTookIt;
    hide AllFollow;
    hide AllTookFront;
    if s.phase.AwaitCommit? && Accepts(s, s.phase.id) {
      CommitsStay(w, s, n, s.phase.id, s.phase.transfer);
    }
    if s.phase.AwaitRelay? && s.phase.command.Commit? && s.held && Accepts(s, s.phase.id) {
      TakenStays(w, s, n, s.phase.id, s.app.bytes);
    }
  }

  lemma PolledHasLess(s: State)
    ensures HasLess(s, Polled(s))
  {
    if s.toDaemon != [] {
      assert s.toDaemon[0] in s.toDaemon;
    }
  }

  lemma ReconnectHasLess(s: State)
    ensures HasLess(s, s.(toDriver := [], toDaemon := []))
  {
  }

  lemma TakenKeepsInv(w: World, s: State)
    requires Inv(w, s)
    ensures Inv(w, Taken(w, s))
  {
    InvParts(w, s);
    var less := s.(pending := None);
    TakingHasLess(s);
    LessKeepsInv(w, s, less);
    InvParts(w, less);
    hide IdsOk;
    hide HeldOk;
    hide Relayed;
    match s.phase
    case Idle =>
    case Streaming(_, _, _) =>
    case AwaitRoute(_) =>
      ReportedStays(w, less, Taken(w, s));
      IdsStay(less, Taken(w, s));
      HeldStays(less, Taken(w, s));
    case AwaitBegin(id, t) =>
      ReportedStays(w, less, Taken(w, s));
      TakenBegin(w, s);
      IdsStay(less, Taken(w, s));
      HeldStays(less, Taken(w, s));
    case AwaitCommit(id, t) =>
      TakenCommit(w, s);
      IdsStay(less, Taken(w, s));
      HeldStays(less, Taken(w, s));
    case AwaitRelay(id, c) =>
      if PendingFor(id, s.pending) == 1 {
        TakenRelay(w, s);
      }
  }

  /** Held or no longer held, with everything else as it was. */
  lemma HeldStays(s: State, n: State)
    requires HeldOk(s) && n.contexts == s.contexts && n.toDriver == s.toDriver
    requires n.held ==> s.held && n.app.bytes == s.app.bytes
    ensures HeldOk(n)
  {
  }

  lemma ForgottenKeepsInv(w: World, s: State, phase: Phase)
    requires IdsOk(s) && Reported(w, s) && phase.Idle?
    ensures Inv(w, Forgotten(s.(phase := phase)))
  {
    var n := Forgotten(s.(phase := phase));
    ReportedStays(w, s, n);
    IdsStay(s, n);
    hide IdsOk;
    hide Reported;
  }

  lemma TakenRelay(w: World, s: State)
    requires Inv(w, s) && s.phase.AwaitRelay? && PendingFor(s.phase.id, s.pending) == 1
    requires Inv(w, s.(pending := None))
    ensures Inv(w, Taken(w, s))
  {
    var AwaitRelay(id, c) := s.phase;
    var t, n, accepted := s.(pending := None), Taken(w, s), s.pending.value.ack.accepted;
    InvParts(w, t);
    InvParts(w, s);
    hide IdsOk;
    hide Reported;
    hide AppStored;
    ForgottenKeepsInv(w, t, Idle);
    if c.Begin? && accepted {
      AcceptedBeginIsHeld(w, s);
    } else if c.Commit? && accepted {
      AcceptedCommitIsStored(w, s);
    } else if accepted && !c.Abort? {
      ReportedStays(w, t, n);
      IdsStay(t, n);
      HeldStays(t, n);
    }
  }

  lemma AcceptedBeginIsHeld(w: World, s: State)
    requires IdsOk(s) && Reported(w, s) && PhaseOk(w, s) && s.phase.AwaitRelay? && s.phase.command.Begin?
    requires PendingFor(s.phase.id, s.pending) == 1 && s.pending.value.ack.accepted
    ensures Inv(w, s.(pending := None, phase := Idle, held := true))
  {
    var n := s.(pending := None, phase := Idle, held := true);
    assert IsAnswer(s, s.pending.value) && Accepts(s, s.phase.id);
    assert s.toDriver == [];
    ReportedStays(w, s, n);
    hide Reported;
    hide AllFollow;
    assert IdsOk(n);
  }

  lemma AcceptedCommitIsStored(w: World, s: State)
    requires IdsOk(s) && Reported(w, s) && PhaseOk(w, s) && s.phase.AwaitRelay? && s.phase.command.Commit?
    requires PendingFor(s.phase.id, s.pending) == 1 && s.pending.value.ack.accepted
    ensures Inv(w, AppStored(w, s.(pending := None, phase := Idle), s.phase.id))
  {
    var t := s.(pending := None, phase := Idle);
    var n := AppStored(w, t, s.phase.id);
    StoredKeepsReported(w, s);
    hide Reported;
    hide Complete;
    hide PhaseOk;
    IdsStay(s.(pending := None), n);
    IdleIsOk(w, n);
  }

  lemma StoredKeepsReported(w: World, s: State)
    requires Reported(w, s) && PhaseOk(w, s) && s.phase.AwaitRelay? && s.phase.command.Commit?
    requires PendingFor(s.phase.id, s.pending) == 1 && s.pending.value.ack.accepted
    ensures Reported(w, AppStored(w, s.(pending := None, phase := Idle), s.phase.id))
  {
    var id := s.phase.id;
    var n := AppStored(w, s.(pending := None, phase := Idle), id);
    var complete := Complete(s.app, s.route, w.hash);
    assert IsAnswer(s, s.pending.value) && Accepts(s, id);
    hide Complete;
    hide WasCommitted;
    hide WasTaken;
    if complete.Some? {
      CompleteIsValid(s.app, s.route, w.hash);
      if s.held {
        TakenIsCommitted(w, s, id, complete.value);
      }
    }
    hide PhaseOk;
    forall k | k in n.reported
      ensures WasCommitted(w, n, k, n.reported[k])
    {
      CommitsStay(w, s, n, k, s.reported[k]);
    }
    forall j | 0 <= j < |n.stored| && n.stored[j].held
      ensures WasCommitted(w, n, n.stored[j].id, n.stored[j].transfer)
    {
      CommitsStay(w, s, n, n.stored[j].id, n.stored[j].transfer);
    }
  }

  lemma TakenIsCommitted(w: World, s: State, id: U64, t: Transfer)
    requires WasTaken(w, s, id, t.bytes) && DecodedSnapshot(t.bytes, w.hash) == Ok(t.snapshot)
    ensures WasCommitted(w, s, id, t)
  {
    hide AllTookFront;
    hide AllTookIt;
    hide DecodedSnapshot;
    var j: nat :| j < |s.commits| && s.commits[j].id == id && AllTookFront(w, t.bytes, s.commits[j]);
    TookFrontTookAll(w, t, s.commits[j]);
  }

  lemma TakingHasLess(s: State)
    ensures HasLess(s, s.(pending := None))
  {
  }

  lemma IdsStay(s: State, n: State)
    requires IdsOk(s) && n.toDriver == s.toDriver && n.toDaemon == s.toDaemon && n.pending == s.pending
    requires n.nextId == s.nextId
    ensures IdsOk(n)
  {
  }

  lemma TakenBegin(w: World, s: State)
    requires PhaseOk(w, s) && s.phase.AwaitBegin? && PhaseOk(w, s.(pending := None))
    ensures PhaseOk(w, Taken(w, s))
  {
    hide IsTransfer;
    hide AllStageFront;
    var AwaitBegin(id, t) := s.phase;
    var n := Taken(w, s);
    if PendingFor(id, s.pending) == 1 {
      assert IsAnswer(s, s.pending.value);
      assert InFlight(id, n) == 0;
      NotInFlight(n, id);
    }
  }

  lemma TakenCommit(w: World, s: State)
    requires PhaseOk(w, s) && s.phase.AwaitCommit? && Reported(w, s) && PhaseOk(w, s.(pending := None))
    ensures PhaseOk(w, Taken(w, s)) && Reported(w, Taken(w, s))
  {
    hide IsTransfer;
    hide AllStageFront;
    hide AllTookIt;
    hide IsPartOf;
    var AwaitCommit(id, t) := s.phase;
    var n := Taken(w, s);
    if PendingFor(id, s.pending) == 1 {
      assert IsAnswer(s, s.pending.value);
    }
    forall i | i in n.reported
      ensures WasCommitted(w, n, i, n.reported[i])
    {
      CommitsStay(w, s, n, i, n.reported[i]);
    }
    forall j | 0 <= j < |n.stored| && n.stored[j].held
      ensures WasCommitted(w, n, n.stored[j].id, n.stored[j].transfer)
    {
      CommitsStay(w, s, n, s.stored[j].id, s.stored[j].transfer);
    }
  }

  lemma ContextsKeepInv(w: World, s: State, contexts: seq<Context>)
    requires Inv(w, s)
    requires forall c <- contexts :: c in s.contexts || c == Apply.INITIAL
    ensures Inv(w, s.(contexts := contexts))
  {
    var n := s.(contexts := contexts);
    InvParts(w, s);
    ReportedStays(w, s, n);
    IdsStay(s, n);
    hide IdsOk;
    hide Reported;
    ContextsKeepPhase(w, s, contexts);
    hide PhaseOk;
    if s.held {
      SomeFollow(s.contexts, contexts, s.app.bytes);
    }
    hide AllFollow;
  }

  lemma SomeFollow(all: seq<Context>, contexts: seq<Context>, bytes: Data)
    requires AllFollow(all, bytes)
    requires forall c <- contexts :: c in all || c == Apply.INITIAL
    ensures AllFollow(contexts, bytes)
  {
    assert Follows(Apply.INITIAL, bytes);
    hide Follows;
    forall i | 0 <= i < |contexts|
      ensures Follows(contexts[i], bytes)
    {
      assert contexts[i] in contexts;
    }
  }

  lemma ContextsKeepPhase(w: World, s: State, contexts: seq<Context>)
    requires PhaseOk(w, s)
    requires forall c <- contexts :: c in s.contexts || c == Apply.INITIAL
    ensures PhaseOk(w, s.(contexts := contexts))
  {
    var n := s.(contexts := contexts);
    hide IsPartOf;
    hide AllTookIt;
    if s.phase.AwaitBegin? || s.phase.Streaming? || s.phase.AwaitCommit? {
      var t := s.phase.transfer;
      TransferIsSendable(w, t);
      hide IsTransfer;
      if AllStageFront(s.contexts, t) {
        SomeStageFront(s.contexts, contexts, t);
      }
      hide AllStageFront;
      if s.phase.AwaitCommit? && Accepts(s, s.phase.id) {
        CommitsStay(w, s, n, s.phase.id, t);
      }
    } else if s.phase.AwaitRelay? {
      var AwaitRelay(id, c) := s.phase;
      if c.Begin? && Accepts(s, id) {
        SomeFollow(s.contexts, contexts, []);
      }
      if c.Commit? && s.held && Accepts(s, id) {
        TakenStays(w, s, n, id, s.app.bytes);
      }
      hide AllFollow;
      hide WasTaken;
    }
  }

  lemma SomeStageFront(all: seq<Context>, contexts: seq<Context>, t: Transfer)
    requires |t.bytes| <= MAX_SNAPSHOT_SIZE && AllStageFront(all, t)
    requires forall c <- contexts :: c in all || c == Apply.INITIAL
    ensures AllStageFront(contexts, t)
  {
    NotStaging(Apply.INITIAL, t);
    hide StagesFront;
    forall i | 0 <= i < |contexts|
      ensures StagesFront(contexts[i], t)
    {
      assert contexts[i] in contexts;
    }
  }

  lemma PhaseEndsKeepsInv(w: World, s: State)
    requires Inv(w, s)
    ensures Inv(w, s.(phase := Idle))
  {
    InvParts(w, s);
    ReportedStays(w, s, s.(phase := Idle));
    IdsStay(s, s.(phase := Idle));
    hide IdsOk;
    hide Reported;
  }

  lemma SkippedKeepsInv(w: World, s: State)
    requires Inv(w, s)
    ensures Inv(w, Skipped(s))
  {
    ReportedStays(w, s, Skipped(s));
    hide Reported;
  }

  lemma RouteChangesKeepsInv(w: World, s: State, route: Data)
    requires Inv(w, s)
    ensures Inv(w, s.(route := route))
  {
    var n := s.(route := route);
    InvParts(w, s);
    ReportedStays(w, s, n);
    IdsStay(s, n);
    HeldStays(s, n);
    hide IdsOk;
    hide Reported;
    hide HeldOk;
    PhaseIgnoresRoute(w, s, n);
  }

  lemma PhaseIgnoresRoute(w: World, s: State, n: State)
    requires PhaseOk(w, s) && n == s.(route := n.route)
    ensures PhaseOk(w, n)
  {
    LessKeepsPhase(w, s, n);
  }

  lemma TimedOutKeepsInv(w: World, s: State)
    requires Inv(w, s)
    ensures Inv(w, TimedOut(w, s))
  {
    if s.phase.AwaitRelay? {
      InvParts(w, s);
      ForgottenKeepsInv(w, s, Idle);
      hide Inv;
    } else if !s.phase.Streaming? {
      PhaseEndsKeepsInv(w, s);
    }
  }

  /** The copy grows by what is relayed, so that fronts of it stay fronts of it. */
  lemma KeptGrows(s: State, c: Command.Command)
    requires HeldOk(s) && s.held && Kept(s.app, c).staging && !c.Begin?
    ensures AllFollow(s.contexts, Kept(s.app, c).bytes)
    ensures forall m <- s.toDriver | m.command.Chunk? :: IsChunkOf(m.command, Kept(s.app, c).bytes)
    ensures c.Chunk? ==> IsChunkOf(c, Kept(s.app, c).bytes) || !s.app.staging
  {
    var bytes, more := s.app.bytes, Kept(s.app, c).bytes;
    assert bytes <= more;
    forall i | 0 <= i < |s.contexts|
      ensures Follows(s.contexts[i], more)
    {
      assert Follows(s.contexts[i], bytes);
    }
    forall m | m in s.toDriver && m.command.Chunk?
      ensures IsChunkOf(m.command, more)
    {
      assert IsChunkOf(m.command, bytes);
    }
  }

  lemma RelayingKeepsInv(w: World, s: State, c: Command.Command, attempt: Attempt)
    requires Inv(w, s)
    ensures Inv(w, Relaying(s, c, attempt))
  {
    var n := Relaying(s, c, attempt);
    if n != s {
      InvParts(w, s);
      ReportedStays(w, s, n);
      RelayingKeepsHeld(s, c, attempt);
      RelayingKeepsIds(s, c, attempt);
      RelayingPhase(w, s, c, attempt);
      PartsInv(w, n);
    }
  }

  lemma RelayingKeepsHeld(s: State, c: Command.Command, attempt: Attempt)
    requires HeldOk(s)
    ensures HeldOk(Relaying(s, c, attempt))
  {
    var n := Relaying(s, c, attempt);
    if n.held && n != s {
      KeptGrows(s, c);
      hide AllFollow;
      hide IsChunkOf;
    }
  }

  lemma RelayingKeepsIds(s: State, c: Command.Command, attempt: Attempt)
    requires IdsOk(s)
    ensures IdsOk(Relaying(s, c, attempt))
  {
    hide Kept;
  }

  lemma RelayingPhase(w: World, s: State, c: Command.Command, attempt: Attempt)
    requires IdsOk(s) && PhaseOk(w, s)
    ensures PhaseOk(w, Relaying(s, c, attempt))
  {
    var n := Relaying(s, c, attempt);
    if n.phase != s.phase {
      var id := n.phase.id;
      NotInFlight(s, id);
      hide InFlight;
      NotInFlight(n, id);
    }
  }

  lemma StepKeepsInv(w: World, s: State, e: Event)
    requires Inv(w, s)
    ensures Inv(w, Next(w, s, e))
  {
    hide Inv;
    hide Handled;
    hide Taken;
    hide Polled;
    hide Chunked;
    hide Ended;
    hide Announced;
    hide EncodedSnapshot;
    hide Started;
    hide Skipped;
    hide Relaying;
    hide TimedOut;
    match e
    case Begin(snapshot, goes) =>
      SkippedKeepsInv(w, s);
      if EncodedSnapshot(snapshot, w.hash).Ok? {
        EncodedIsTransfer(w, snapshot);
        StartedKeepsInv(w, s, Transfer(snapshot, EncodedSnapshot(snapshot, w.hash).value));
      }
    case Announce(_) =>
      SkippedKeepsInv(w, s);
      AnnouncedKeepsInv(w, s);
    case RouteChanges(keyHash) => RouteChangesKeepsInv(w, s, keyHash);
    case Relay(c, attempt) => RelayingKeepsInv(w, s, c, attempt);
    case SendChunk => ChunkedKeepsInv(w, s);
    case SendCommit => EndedKeepsInv(w, s);
    case SendFails => PhaseEndsKeepsInv(w, s);
    case Handle(answers, lost) =>
      if s.toDriver != [] {
        HandleKeepsInv(w, s, answers, lost);
      }
    case Poll =>
      PolledHasLess(s);
      LessKeepsInv(w, s, Polled(s));
    case Take => TakenKeepsInv(w, s);
    case Timeout => TimedOutKeepsInv(w, s);
    case Reconnect =>
      ReconnectHasLess(s);
      LessKeepsInv(w, s, s.(toDriver := [], toDaemon := []));
    case Register => ContextsKeepInv(w, s, s.contexts + [Apply.INITIAL]);
    case Unregister(k) =>
      if k < |s.contexts| {
        ContextsKeepInv(w, s, s.contexts[..k] + s.contexts[k + 1..]);
      }
  }

  lemma StartIsOk(w: World)
    ensures Inv(w, START)
  {
  }

  lemma {:induction false} RunKeepsInv(w: World, events: seq<Event>)
    ensures Inv(w, Run(w, START, events))
  {
    hide Next;
    hide Inv;
    if events == [] {
      StartIsOk(w);
    } else {
      RunKeepsInv(w, events[..|events| - 1]);
      StepKeepsInv(w, Run(w, START, events[..|events| - 1]), events[|events| - 1]);
    }
  }

  /**
    Whatever is lost or comes late, and whichever contexts come and go: a transfer that is reported accepted was
    committed. At that commit there were contexts, and each of them took exactly the snapshot that was sent.
  */
  lemma ReportedWasCommitted(w: World, events: seq<Event>, id: U64)
    requires id in Run(w, START, events).reported
    ensures var s := Run(w, START, events);
            WasCommitted(w, s, id, s.reported[id])
  {
    RunKeepsInv(w, events);
    hide Run;
    hide WasCommitted;
    hide PhaseOk;
  }

  /**
    What the App sends is stored only as it was taken: whatever it sends in whichever order, and whatever is refused, lost
    or cannot be sent, a snapshot stored while the App was held to it was committed under that very request, and each
    context there took exactly that snapshot.
  */
  lemma StoredWasTaken(w: World, events: seq<Event>, j: nat)
    requires j < |Run(w, START, events).stored| && Run(w, START, events).stored[j].held
    ensures var s := Run(w, START, events);
            WasCommitted(w, s, s.stored[j].id, s.stored[j].transfer)
  {
    RunKeepsInv(w, events);
    hide Run;
    hide WasCommitted;
    hide PhaseOk;
  }

  // ---------------------------------------------------------------- a run in which nothing is lost

  function ChunkRun(bytes: Data, offset: nat, answers: nat -> Answer): seq<Event>
    requires |bytes| <= MAX_SNAPSHOT_SIZE
    decreases |bytes| - offset
  {
    if offset >= |bytes| then []
    else [SendChunk, Handle(answers, false)] + ChunkRun(bytes, ChunkEnd(bytes, offset), answers)
  }

  function RoundTrip(e: Event, answers: nat -> Answer): seq<Event> {
    [e, Handle(answers, false), Poll, Take]
  }

  function LosslessRun(t: Transfer, answers: nat -> Answer): seq<Event>
    requires |t.bytes| <= MAX_SNAPSHOT_SIZE
  {
    RoundTrip(Begin(t.snapshot, true), answers) + ChunkRun(t.bytes, 0, answers) + RoundTrip(SendCommit, answers)
  }

  lemma {:induction false} RunOn(w: World, s: State, first: seq<Event>, second: seq<Event>)
    ensures Run(w, s, first + second) == Run(w, Run(w, s, first), second)
  {
    hide Next;
    if second == [] {
      assert first + second == first;
    } else {
      var n := |second| - 1;
      RunOn(w, s, first, second[..n]);
      assert (first + second)[..|first + second| - 1] == first + second[..n];
    }
  }

  lemma RunTwo(w: World, s: State, a: Event, b: Event)
    ensures Run(w, s, [a, b]) == Next(w, Next(w, s, a), b)
  {
    hide Next;
    assert [a, b][..1] == [a] && [a][..0] == [];
    assert Run(w, s, [a]) == Next(w, Run(w, s, []), a);
  }

  lemma PollTakes(w: World, s: State)
    ensures Next(w, Next(w, s, Poll), Take) == Taken(w, Polled(s))
  {
    hide Taken;
    hide Polled;
  }

  lemma RunRoundTrip(w: World, s: State, e: Event, answers: nat -> Answer)
    ensures Run(w, s, RoundTrip(e, answers))
         == Taken(w, Polled(Next(w, Next(w, s, e), Handle(answers, false))))
  {
    var handled := Run(w, s, [e, Handle(answers, false)]);
    assert RoundTrip(e, answers) == [e, Handle(answers, false)] + [Poll, Take];
    PollTakes(w, handled);
    hide *;
    RunTwo(w, s, e, Handle(answers, false));
    RunTwo(w, handled, Poll, Take);
    RunOn(w, s, [e, Handle(answers, false)], [Poll, Take]);
  }

  function AfterReaction(s: State, r: Reaction, m: Message): State {
    s.(toDriver := [], contexts := r.contexts, toDaemon := s.toDaemon + r.responses,
       commits := if m.command.Commit? && AllAccepted(r)
                  then s.commits + [Commit(m.id, s.contexts, r.calls, r.contexts)] else s.commits)
  }

  lemma HandlesOne(w: World, s: State, m: Sent, answers: nat -> Answer)
    requires s.toDriver == [m]
    ensures Handled(w, s, answers, false)
         == AfterReaction(s, FanOut(w, s.contexts, m.command, m.id, First(answers, |s.contexts|)), m)
  {
    hide *;
    ReceivesCommand(w, s.contexts, m.command, m.id, First(answers, |s.contexts|));
    HandledIs(w, s, m, answers);
  }

  lemma HandledIs(w: World, s: State, m: Sent, answers: nat -> Answer)
    requires s.toDriver == [m]
    ensures Handled(w, s, answers, false)
         == AfterReaction(s, Receive(w, s.contexts, CommandFrame(m.command, m.id), First(answers, |s.contexts|)), m)
  {
    hide Receive;
    hide CommandFrame;
    hide First;
  }

  /** Nothing is under way. */
  predicate IsQuiet(s: State) {
    s.toDriver == [] && s.toDaemon == []
  }

  /** Where the run stands after `offset` bytes. */
  function Midway(s: State, contexts: seq<Context>, id: U64, t: Transfer, offset: nat): State
    requires offset <= |t.bytes| <= MAX_SNAPSHOT_SIZE
  {
    s.(phase := Streaming(id, t, offset), nextId := id + 1, pending := None, held := false,
       contexts := Staging(contexts, MetadataFor(t.snapshot, t.bytes), t.bytes[..offset]))
  }

  /** The daemon has sent a single command. */
  function Sending(s: State, phase: Phase, m: Sent): State {
    s.(phase := phase, toDriver := [m])
  }

  lemma BeginIsSent(w: World, s: State, t: Transfer)
    requires IsQuiet(s) && s.phase.Idle? && s.nextId < LAST_ID && Sendable(t.snapshot, t.bytes)
    requires EncodedSnapshot(t.snapshot, w.hash) == Ok(t.bytes)
    ensures Next(w, s, Begin(t.snapshot, true))
         == Sending(s.(nextId := s.nextId + 1), AwaitBegin(s.nextId, t), BeginMessage(t, s.nextId))
  {
    hide EncodedSnapshot;
    hide IsLowerHex64;
    hide PayloadCrc;
  }

  lemma BeginIsHeard(w: World, s: State, t: Transfer, m: Sent, r: Reaction)
    requires IsQuiet(s) && s.nextId < LAST_ID && m.command.Begin?
    requires r.responses == [BeginReply(t.snapshot, s.nextId)]
    ensures Taken(w, Polled(AfterReaction(Sending(s.(nextId := s.nextId + 1), AwaitBegin(s.nextId, t), m), r, m)))
         == s.(phase := Streaming(s.nextId, t, 0), nextId := s.nextId + 1, pending := None, held := false,
               contexts := r.contexts)
  {
    assert [] + r.responses == r.responses;
  }

  lemma BeginRuns(w: World, s: State, t: Transfer, answers: nat -> Answer)
    requires IsQuiet(s) && s.phase.Idle? && s.nextId < LAST_ID && Sendable(t.snapshot, t.bytes)
    requires EncodedSnapshot(t.snapshot, w.hash) == Ok(t.bytes) && AllReady(s.contexts, t.snapshot.deviceKeyHash)
    ensures Run(w, s, RoundTrip(Begin(t.snapshot, true), answers)) == Midway(s, s.contexts, s.nextId, t, 0)
  {
    LengthOfHash(t.snapshot.deviceKeyHash);
    var m, some := BeginMessage(t, s.nextId), First(answers, |s.contexts|);
    var sent := Sending(s.(nextId := s.nextId + 1), AwaitBegin(s.nextId, t), m);
    var r := FanOut(w, s.contexts, m.command, m.id, some);
    assert t.bytes[..0] == [] && sent.contexts == s.contexts && sent.toDriver == [m];
    hide *;
    RunRoundTrip(w, s, Begin(t.snapshot, true), answers);
    BeginIsSent(w, s, t);
    HandleIsHandled(w, sent, answers);
    HandlesOne(w, sent, m, answers);
    BeginFansOut(w, s.contexts, t, s.nextId, some);
    BeginIsHeard(w, s, t, m, r);
  }

  lemma BeginFansOut(w: World, contexts: seq<Context>, t: Transfer, id: U64, answers: seq<Answer>)
    requires Sendable(t.snapshot, t.bytes) && AllReady(contexts, t.snapshot.deviceKeyHash)
    requires |answers| == |contexts|
    ensures var r := FanOut(w, contexts, BeginFor(t.snapshot, t.bytes), id, answers);
            && r.responses == [BeginReply(t.snapshot, id)]
            && r.contexts == Staging(contexts, MetadataFor(t.snapshot, t.bytes), [])
  {
    LengthOfHash(t.snapshot.deviceKeyHash);
    hide IsLowerHex64;
    hide FanOut;
    hide PayloadCrc;
    hide AllReady;
    hide Staging;
    BeginDelivered(w, contexts, t.snapshot, t.bytes, id, answers);
  }

  lemma ChunkIsSent(w: World, s: State, id: U64, t: Transfer, offset: nat)
    requires s.phase == Streaming(id, t, offset) && s.toDriver == [] && offset < |t.bytes| <= MAX_SNAPSHOT_SIZE
    ensures var end := ChunkEnd(t.bytes, offset);
            var m: Sent := Message(id, Command.Chunk(offset, t.bytes[offset..end]));
            Next(w, s, SendChunk) == Sending(s, Streaming(id, t, end), m)
  {
  }

  lemma ChunkIsStaged(s: State, phase: Phase, m: Sent, r: Reaction)
    requires IsQuiet(s) && m.command.Chunk? && r.responses == []
    ensures AfterReaction(Sending(s, phase, m), r, m) == s.(phase := phase, contexts := r.contexts)
  {
    assert [] + r.responses == [];
  }

  function Moved(s: State, contexts: seq<Context>, id: U64, t: Transfer, end: nat): State
    requires end <= |t.bytes| <= MAX_SNAPSHOT_SIZE
  {
    s.(phase := Streaming(id, t, end),
       contexts := Staging(contexts, MetadataFor(t.snapshot, t.bytes), t.bytes[..end]))
  }

  lemma MidwayIs(s: State, contexts: seq<Context>, id: U64, t: Transfer, offset: nat)
    requires offset <= |t.bytes| <= MAX_SNAPSHOT_SIZE
    ensures var now := Midway(s, contexts, id, t, offset);
            && now.phase == Streaming(id, t, offset) && now.toDriver == s.toDriver && now.toDaemon == s.toDaemon
            && now.contexts == Staging(contexts, MetadataFor(t.snapshot, t.bytes), t.bytes[..offset])
            && now.reported == s.reported
    ensures forall end: nat | end <= |t.bytes| ::
              Moved(Midway(s, contexts, id, t, offset), contexts, id, t, end) == Midway(s, contexts, id, t, end)
  {
    hide Staging;
    hide MetadataFor;
  }

  lemma ChunkRuns(w: World, s: State, contexts: seq<Context>, id: U64, t: Transfer, offset: nat, answers: nat -> Answer)
    requires IsQuiet(s) && contexts != [] && id < LAST_ID && offset < |t.bytes| && Sendable(t.snapshot, t.bytes)
    ensures Run(w, Midway(s, contexts, id, t, offset), [SendChunk, Handle(answers, false)])
         == Midway(s, contexts, id, t, ChunkEnd(t.bytes, offset))
  {
    var now, end := Midway(s, contexts, id, t, offset), ChunkEnd(t.bytes, offset);
    var metadata, some := MetadataFor(t.snapshot, t.bytes), First(answers, |contexts|);
    var prefix, chunk := t.bytes[..offset], t.bytes[offset..end];
    assert prefix + chunk == t.bytes[..end] && metadata.totalSize == |t.bytes|;
    var m: Sent := Message(id, Command.Chunk(offset, chunk));
    assert m.command.Chunk?;
    MidwayIs(s, contexts, id, t, offset);
    ChunkIsSent(w, now, id, t, offset);
    var sent := Sending(now, Streaming(id, t, end), m);
    assert sent.contexts == now.contexts && sent.toDriver == [m] && IsQuiet(now);
    var r := FanOut(w, now.contexts, m.command, id, some);
    hide *;
    RunTwo(w, now, SendChunk, Handle(answers, false));
    HandleIsHandled(w, sent, answers);
    HandlesOne(w, sent, m, answers);
    ChunkDelivered(w, contexts, metadata, prefix, chunk, id, some);
    ChunkIsStaged(now, Streaming(id, t, end), m, r);
  }

  lemma HandleIsHandled(w: World, s: State, answers: nat -> Answer)
    requires s.toDriver != []
    ensures Next(w, s, Handle(answers, false)) == Handled(w, s, answers, false)
  {
    hide Handled;
  }

  lemma {:induction false} AllChunksRun(
      w: World, s: State, contexts: seq<Context>, id: U64, t: Transfer, offset: nat, answers: nat -> Answer)
    requires IsQuiet(s) && contexts != [] && id < LAST_ID && offset <= |t.bytes| && Sendable(t.snapshot, t.bytes)
    ensures Run(w, Midway(s, contexts, id, t, offset), ChunkRun(t.bytes, offset, answers))
         == Midway(s, contexts, id, t, |t.bytes|)
    decreases |t.bytes| - offset
  {
    hide Midway;
    hide Next;
    hide IsLowerHex64;
    if offset < |t.bytes| {
      var end := ChunkEnd(t.bytes, offset);
      ChunkRuns(w, s, contexts, id, t, offset, answers);
      AllChunksRun(w, s, contexts, id, t, end, answers);
      RunOn(w, Midway(s, contexts, id, t, offset), [SendChunk, Handle(answers, false)], ChunkRun(t.bytes, end, answers));
      hide Run;
    }
  }

  /** Every context has the snapshot, or is older and adopts it. */
  ghost predicate AllAdopt(contexts: seq<Context>, snapshot: Snapshot, answers: nat -> Answer) {
    forall i: nat | i < |contexts| ::
      IsRepeat(contexts[i], snapshot) || (IsNewer(contexts[i], snapshot) && answers(i).Adopts?)
  }

  lemma CommitIsSent(w: World, s: State, id: U64, t: Transfer)
    requires s.phase == Streaming(id, t, |t.bytes|) && s.toDriver == [] && Command.Allowed(CommitFor(t.snapshot))
    ensures Next(w, s, SendCommit) == Sending(s, AwaitCommit(id, t), Message(id, CommitFor(t.snapshot)))
  {
  }

  lemma CommitIsHeard(w: World, s: State, id: U64, t: Transfer, m: Sent, r: Reaction)
    requires IsQuiet(s) && |r.responses| == 1 && r.responses[0].requestId == id
    ensures var n := Taken(w, Polled(AfterReaction(Sending(s, AwaitCommit(id, t), m), r, m)));
            && n.phase.Idle? && IsQuiet(n)
            && n.reported == if r.responses[0].ack.accepted then s.reported[id := t] else s.reported
  {
    assert [] + r.responses == [r.responses[0]];
  }

  lemma CommitRuns(
      w: World, s: State, contexts: seq<Context>, id: U64, t: Transfer, request: CommitRequest, answers: nat -> Answer)
    requires IsQuiet(s) && id < LAST_ID && AllReady(contexts, t.snapshot.deviceKeyHash)
    requires Sendable(t.snapshot, t.bytes) && Means(w, t.bytes, request) && request.snapshot == t.snapshot
    ensures var n := Run(w, Midway(s, contexts, id, t, |t.bytes|), RoundTrip(SendCommit, answers));
            && n.phase.Idle? && IsQuiet(n)
            && n.reported == if AllAdopt(contexts, t.snapshot, answers) then s.reported[id := t] else s.reported
  {
    var now, some := Midway(s, contexts, id, t, |t.bytes|), First(answers, |contexts|);
    assert t.bytes[..|t.bytes|] == t.bytes && Command.Allowed(CommitFor(t.snapshot));
    var m: Sent := Message(id, CommitFor(t.snapshot));
    MidwayIs(s, contexts, id, t, |t.bytes|);
    CommitIsSent(w, now, id, t);
    var sent := Sending(now, AwaitCommit(id, t), m);
    assert sent.contexts == now.contexts && sent.toDriver == [m] && IsQuiet(now);
    var r := FanOut(w, now.contexts, m.command, id, some);
    hide *;
    RunRoundTrip(w, now, SendCommit, answers);
    HandleIsHandled(w, sent, answers);
    HandlesOne(w, sent, m, answers);
    CommitIsCommit(t.snapshot);
    CommitDelivered(w, contexts, t.bytes, CommitFor(t.snapshot), request, id, some);
    DeliveredMeans(contexts, request, id, some, r);
    FirstAdopt(contexts, t.snapshot, answers);
    CommitIsHeard(w, now, id, t, m, r);
  }

  ghost predicate SomeAdopt(contexts: seq<Context>, snapshot: Snapshot, answers: seq<Answer>)
    requires |answers| == |contexts|
  {
    forall i | 0 <= i < |contexts| ::
      IsRepeat(contexts[i], snapshot) || (IsNewer(contexts[i], snapshot) && answers[i].Adopts?)
  }

  lemma FirstAdopt(contexts: seq<Context>, snapshot: Snapshot, answers: nat -> Answer)
    ensures SomeAdopt(contexts, snapshot, First(answers, |contexts|)) <==> AllAdopt(contexts, snapshot, answers)
  {
    hide IsRepeat;
    hide IsNewer;
  }

  lemma DeliveredMeans(contexts: seq<Context>, request: CommitRequest, id: U64, answers: seq<Answer>, r: Reaction)
    requires |contexts| == |answers| == |r.contexts| == |r.calls|
    requires Delivered(contexts, request, id, answers, r.(responses := [BeginReply(request.snapshot, id)] + r.responses))
    ensures |r.responses| == 1 && r.responses[0].requestId == id
    ensures r.responses[0].ack.accepted <==> SomeAdopt(contexts, request.snapshot, answers)
  {
    hide IsRepeat;
    hide IsNewer;
  }

  lemma LosslessIs(w: World, s: State, t: Transfer, request: CommitRequest, answers: nat -> Answer)
    requires IsQuiet(s) && s.phase.Idle? && s.nextId < LAST_ID && AllReady(s.contexts, t.snapshot.deviceKeyHash)
    requires Sendable(t.snapshot, t.bytes) && EncodedSnapshot(t.snapshot, w.hash) == Ok(t.bytes)
    requires Means(w, t.bytes, request) && request.snapshot == t.snapshot
    ensures var n := Run(w, s, LosslessRun(t, answers));
            && n.phase.Idle? && IsQuiet(n)
            && n.reported
            == if AllAdopt(s.contexts, t.snapshot, answers) then s.reported[s.nextId := t] else s.reported
  {
    var id := s.nextId;
    var begin, chunks := RoundTrip(Begin(t.snapshot, true), answers), ChunkRun(t.bytes, 0, answers);
    BeginRuns(w, s, t, answers);
    AllChunksRun(w, s, s.contexts, id, t, 0, answers);
    CommitRuns(w, s, s.contexts, id, t, request, answers);
    hide Run;
    hide RoundTrip;
    hide ChunkRun;
    hide Midway;
    hide Means;
    RunOn(w, s, begin, chunks);
    RunOn(w, s, begin + chunks, RoundTrip(SendCommit, answers));
  }

  /**
    The converse: with nothing lost, a transfer of a valid snapshot to idle contexts on its route ends, and it is
    reported accepted if and only if every context has the snapshot or is older and adopts it.
  */
  lemma LosslessTransferReports(w: World, s: State, request: CommitRequest, answers: nat -> Answer)
    requires IsQuiet(s) && s.phase.Idle? && s.nextId < LAST_ID
    requires AllReady(s.contexts, request.snapshot.deviceKeyHash) && IsValid(request.snapshot, w.hash)
    requires DecodedStream(w.catalog, request.snapshot.parameters) == Ok(request.parameters)
    requires DecodedStream(w.catalog, request.snapshot.iemParameters) == Ok(request.iemParameters)
    ensures Encodable(request.snapshot) && |CanonicalWire(request.snapshot)| <= MAX_SNAPSHOT_SIZE
    ensures var t := Transfer(request.snapshot, CanonicalWire(request.snapshot));
            var n := Run(w, s, LosslessRun(t, answers));
            && n.phase.Idle? && IsQuiet(n)
            && n.reported
            == if AllAdopt(s.contexts, t.snapshot, answers) then s.reported[s.nextId := t] else s.reported
  {
    SendableIfValid(request.snapshot, w.hash);
    EncodesExactlyValid(request.snapshot, w.hash);
    SnapshotSchema.DecodeEncode(request.snapshot, w.hash);
    var t := Transfer(request.snapshot, CanonicalWire(request.snapshot));
    hide *;
    MeansIf(w, t.bytes, request);
    AtMostTheLimit(t.snapshot, t.bytes);
    LosslessIs(w, s, t, request, answers);
  }

  lemma AtMostTheLimit(snapshot: Snapshot, bytes: Data)
    requires Sendable(snapshot, bytes)
    ensures |bytes| <= MAX_SNAPSHOT_SIZE
  {
  }
}
