/** Contexts that stage a transfer nobody will finish: how they come about, and what clears them. */
module StuckStaging {
  import opened Bytes
  import opened Wrappers
  import opened ViperDaemonProtocol
  import opened SnapshotSchema
  import opened ParameterStream
  import Command = SnapshotCommand
  import opened SnapshotApply
  import opened SnapshotDelivery

  // ---------------------------------------------------------------- what happens to the contexts

  /**
    What reaches the driver, and contexts coming and going. A snapshot is streamed only after a begin that was accepted
    and whose answer was heard; of its frames the first `delivered` reach the driver, the rest cannot be sent. The daemon
    sends no aborts of its own, but it relays the App's begins, chunks, commits and aborts.
  */
  datatype Action =
    | Send(snapshot: Snapshot, bytes: Data, id: U64, delivered: nat, heard: bool)
    | Announce(keyHash: Data, id: U64)
    | Relay(command: Command.Command, id: U64)
    | Register
    | Unregister(k: nat)

  predicate IsPossible(a: Action) {
    match a
    case Send(snapshot, bytes, id, delivered, _) =>
      Sendable(snapshot, bytes) && delivered <= |TransferFrames(snapshot, bytes, id)|
    case Announce(keyHash, _) => keyHash == [] || IsLowerHex64(keyHash)
    case Relay(command, _) => Command.Allowed(command) && !command.Route?
    case Register => true
    case Unregister(_) => true
  }

  type Act = a: Action | IsPossible(a) witness Register

  /** A snapshot is sent: the begin, and as much of the rest as can be if that was accepted and the daemon heard so. */
  function Sent(w: World, contexts: seq<State>, a: Action, answers: nat -> Answer): (r: Reaction)
    requires a.Send? && IsPossible(a)
    ensures |r.contexts| == |contexts|
  {
    hide *;
    CanDeliver(a);
    var some, frames := First(answers, |contexts|), TransferFrames(a.snapshot, a.bytes, a.id);
    var begun := Receive(w, contexts, frames[0], some);
    if a.delivered == 0 then Reaction(contexts, [], Quiet(|contexts|))
    else if a.heard && begun.responses != [] && begun.responses[0].ack.accepted
      then Deliver(w, contexts, frames[..a.delivered], some)
    else begun
  }

  lemma CanDeliver(a: Action)
    requires a.Send? && IsPossible(a)
    ensures Sendable(a.snapshot, a.bytes)
    ensures |TransferFrames(a.snapshot, a.bytes, a.id)| > 0 && a.delivered <= |TransferFrames(a.snapshot, a.bytes, a.id)|
  {
    hide IsLowerHex64;
    hide CommandFrame;
    hide StreamFrames;
  }

  function Acted(w: World, contexts: seq<State>, a: Action, answers: nat -> Answer): seq<State>
    requires IsPossible(a)
  {
    match a
    case Send(_, _, _, _, _) => Sent(w, contexts, a, answers).contexts
    case Announce(keyHash, id) =>
      Receive(w, contexts, CommandFrame(RouteFor(keyHash), id), First(answers, |contexts|)).contexts
    case Relay(c, id) => Receive(w, contexts, CommandFrame(c, id), First(answers, |contexts|)).contexts
    case Register => contexts + [INITIAL]
    case Unregister(k) => if k < |contexts| then contexts[..k] + contexts[k + 1..] else contexts
  }

  function AllActed(w: World, contexts: seq<State>, actions: seq<Act>, answers: nat -> Answer): seq<State>
    decreases |actions|
  {
    if actions == [] then contexts else AllActed(w, Acted(w, contexts, actions[0], answers), actions[1..], answers)
  }

  // ---------------------------------------------------------------- getting stuck

  ghost predicate NobodyStaging(contexts: seq<State>) {
    forall i | 0 <= i < |contexts| :: !contexts[i].staging
  }

  ghost predicate AllOn(contexts: seq<State>, keyHash: Data) {
    forall i | 0 <= i < |contexts| :: contexts[i].keyHash == keyHash
  }

  ghost predicate NoneOn(contexts: seq<State>, keyHash: Data) {
    forall i | 0 <= i < |contexts| :: contexts[i].keyHash != keyHash
  }

  ghost predicate AllStaging(contexts: seq<State>) {
    contexts != [] && forall i | 0 <= i < |contexts| :: contexts[i].staging
  }

  /** A commit leaves nobody staging. */
  lemma CommitClears(w: World, contexts: seq<State>, c: Command.Command, id: U64, answers: seq<Answer>)
    requires |answers| == |contexts| && c.Commit?
    ensures NobodyStaging(FanOut(w, contexts, c, id, answers).contexts)
  {
    hide AfterCommit;
    var handled := AllObey(w, contexts, c, answers);
    forall i | 0 <= i < |contexts|
      ensures !handled[i].next.staging
    {
      CommitEnds(w, contexts[i], answers[i]);
    }
  }

  /** Some chunks of a transfer leave every context staging what they carried. */
  lemma {:induction false} ChunksStage(
      w: World, contexts: seq<State>, m: Metadata, bytes: Data, offset: nat, id: U64, answers: seq<Answer>, j: nat)
    returns (end: nat)
    requires |answers| == |contexts| > 0
    requires offset <= |bytes| == m.totalSize <= MAX_SNAPSHOT_SIZE && j <= |ChunkFrames(bytes, offset, id)|
    ensures end <= |bytes|
    ensures Deliver(w, Staging(contexts, m, bytes[..offset]), ChunkFrames(bytes, offset, id)[..j], answers).contexts
         == Staging(contexts, m, bytes[..end])
    decreases j
  {
    hide Receive;
    hide FanOut;
    hide CommandFrame;
    hide Deliver;
    var before, frames := Staging(contexts, m, bytes[..offset]), ChunkFrames(bytes, offset, id);
    if j == 0 {
      assert frames[..j] == [];
      DeliverNone(w, before, answers);
      return offset;
    }
    var next := ChunkEnd(bytes, offset);
    var chunk := Command.Chunk(offset, bytes[offset..next]);
    ReceivesCommand(w, before, chunk, id, answers);
    ChunkDelivered(w, contexts, m, bytes[..offset], bytes[offset..next], id, answers);
    assert bytes[..offset] + bytes[offset..next] == bytes[..next];
    end := ChunksStage(w, contexts, m, bytes, next, id, answers, j - 1);
    var later := ChunkFrames(bytes, next, id)[..j - 1];
    assert frames[..j] == [CommandFrame(chunk, id)] + later;
    DeliverFirst(w, before, CommandFrame(chunk, id), later, answers);
  }

  lemma DeliverNone(w: World, contexts: seq<State>, answers: seq<Answer>)
    requires |answers| == |contexts|
    ensures Deliver(w, contexts, [], answers).contexts == contexts
  {
    hide Receive;
  }

  lemma FirstIsBegin(snapshot: Snapshot, bytes: Data, id: U64)
    requires Sendable(snapshot, bytes)
    ensures 0 < |bytes| <= MAX_SNAPSHOT_SIZE && |snapshot.deviceKeyHash| == 64
    ensures snapshot.appGeneration != 0 && snapshot.daemonGeneration != 0
    ensures Command.Allowed(BeginFor(snapshot, bytes)) && BeginFor(snapshot, bytes).Begin?
    ensures TransferFrames(snapshot, bytes, id)
         == [CommandFrame(BeginFor(snapshot, bytes), id)] + StreamFrames(snapshot, bytes, id)
  {
    LengthOfHash(snapshot.deviceKeyHash);
    hide PayloadCrc;
    hide CommandFrame;
    hide StreamFrames;
    hide IsLowerHex64;
  }

  lemma TransferBegins(
      w: World, contexts: seq<State>, snapshot: Snapshot, bytes: Data, id: U64, j: nat, answers: seq<Answer>)
    requires |answers| == |contexts| && Sendable(snapshot, bytes) && AllReady(contexts, snapshot.deviceKeyHash)
    requires j < |TransferFrames(snapshot, bytes, id)|
    ensures Deliver(w, contexts, TransferFrames(snapshot, bytes, id)[..j + 1], answers).contexts
         == Deliver(w, Staging(contexts, MetadataFor(snapshot, bytes), []), StreamFrames(snapshot, bytes, id)[..j],
                    answers).contexts
  {
    hide *;
    FirstIsBegin(snapshot, bytes, id);
    var begin, stream := BeginFor(snapshot, bytes), StreamFrames(snapshot, bytes, id);
    assert TransferFrames(snapshot, bytes, id)[..j + 1] == [CommandFrame(begin, id)] + stream[..j];
    BeginDelivered(w, contexts, snapshot, bytes, id, answers);
    ReceivesCommand(w, contexts, begin, id, answers);
    DeliverFirst(w, contexts, CommandFrame(begin, id), stream[..j], answers);
  }

  /** A transfer to contexts that are ready leaves nobody staging if and only if all of it is delivered, its commit
      included; else it leaves everybody staging. */
  lemma TransferClears(
      w: World, contexts: seq<State>, snapshot: Snapshot, bytes: Data, id: U64, delivered: nat, answers: seq<Answer>)
    requires |answers| == |contexts| && Sendable(snapshot, bytes) && AllReady(contexts, snapshot.deviceKeyHash)
    requires 0 < delivered <= |TransferFrames(snapshot, bytes, id)|
    ensures var r := Deliver(w, contexts, TransferFrames(snapshot, bytes, id)[..delivered], answers);
            if delivered == |TransferFrames(snapshot, bytes, id)| then NobodyStaging(r.contexts)
            else AllStaging(r.contexts)
  {
    hide *;
    FirstIsBegin(snapshot, bytes, id);
    FrameCounts(snapshot, bytes, id);
    SomeReady(contexts, snapshot.deviceKeyHash);
    var m, j := MetadataFor(snapshot, bytes), delivered - 1;
    var stream, chunks := StreamFrames(snapshot, bytes, id), ChunkFrames(bytes, 0, id);
    TransferBegins(w, contexts, snapshot, bytes, id, j, answers);
    if j == |stream| {
      assert stream[..j] == stream;
      StreamDelivered(w, contexts, snapshot, bytes, id, answers);
      CommitIsCommit(snapshot);
      CommitClears(w, Staging(contexts, m, bytes), CommitFor(snapshot), id, answers);
    } else {
      assert stream[..j] == chunks[..j] && bytes[..0] == [];
      AnnouncesSize(snapshot, bytes);
      var end := ChunksStage(w, contexts, m, bytes, 0, id, answers, j);
      StagingStages(contexts, m, bytes[..end]);
    }
  }

  lemma FrameCounts(snapshot: Snapshot, bytes: Data, id: U64)
    requires Sendable(snapshot, bytes)
    ensures |TransferFrames(snapshot, bytes, id)| == 1 + |StreamFrames(snapshot, bytes, id)|
    ensures ChunkFrames(bytes, 0, id) == StreamFrames(snapshot, bytes, id)[..|StreamFrames(snapshot, bytes, id)| - 1]
  {
    hide CommandFrame;
    hide ChunkFrames;
    hide IsLowerHex64;
  }

  lemma SomeReady(contexts: seq<State>, keyHash: Data)
    requires AllReady(contexts, keyHash)
    ensures contexts != []
  {
  }

  lemma CommitIsCommit(snapshot: Snapshot)
    ensures CommitFor(snapshot).Commit?
  {
  }

  lemma AnnouncesSize(snapshot: Snapshot, bytes: Data)
    requires |bytes| <= MAX_SNAPSHOT_SIZE
    ensures MetadataFor(snapshot, bytes).totalSize == |bytes|
  {
  }

  lemma StagingStages(contexts: seq<State>, m: Metadata, prefix: Data)
    requires contexts != []
    ensures AllStaging(Staging(contexts, m, prefix))
  {
  }

  /** Sent to idle contexts, a snapshot leaves nobody staging if and only if no context is on its route, or its begin does
      not arrive, or all are on its route, the daemon hears that the begin was accepted and everything up to the commit
      arrives. */
  lemma IdleAgainIff(w: World, contexts: seq<State>, a: Action, answers: nat -> Answer)
    requires a.Send? && IsPossible(a) && NobodyStaging(contexts)
    ensures NobodyStaging(Sent(w, contexts, a, answers).contexts) <==>
              || NoneOn(contexts, a.snapshot.deviceKeyHash)
              || a.delivered == 0
              || (AllOn(contexts, a.snapshot.deviceKeyHash) && a.heard
                  && a.delivered == |TransferFrames(a.snapshot, a.bytes, a.id)|)
  {
    hide PayloadCrc;
    hide Receive;
    hide Deliver;
    hide CommandFrame;
    hide StreamFrames;
    hide IsLowerHex64;
    var keyHash, some := a.snapshot.deviceKeyHash, First(answers, |contexts|);
    ReceivesCommand(w, contexts, BeginFor(a.snapshot, a.bytes), a.id, some);
    BeginAnswer(w, contexts, BeginFor(a.snapshot, a.bytes), a.id, some);
    hide FanOut;
    assert AllReady(contexts, keyHash) <==> contexts != [] && AllOn(contexts, keyHash);
    if AllReady(contexts, keyHash) && a.delivered > 0 {
      TransferClears(w, contexts, a.snapshot, a.bytes, a.id, a.delivered, some);
      assert contexts[0].keyHash == keyHash;
      var after := Deliver(w, contexts, TransferFrames(a.snapshot, a.bytes, a.id)[..a.delivered], some).contexts;
      assert AllStaging(after) ==> after[0].staging;
    }
  }

  /** A begin of the App sent to idle contexts leaves nobody staging if and only if no context is on its route. */
  lemma RelayedBeginStages(w: World, contexts: seq<State>, a: Action, answers: nat -> Answer)
    requires a.Relay? && IsPossible(a) && a.command.Begin? && NobodyStaging(contexts)
    ensures NobodyStaging(Acted(w, contexts, a, answers)) <==> NoneOn(contexts, a.command.keyHash)
  {
    hide PayloadCrc;
    hide Receive;
    hide CommandFrame;
    hide IsLowerHex64;
    ReceivesCommand(w, contexts, a.command, a.id, First(answers, |contexts|));
    BeginAnswer(w, contexts, a.command, a.id, First(answers, |contexts|));
    hide FanOut;
  }

  function Whole(snapshot: Snapshot, bytes: Data, id: U64): (a: Action)
    requires Sendable(snapshot, bytes)
    ensures IsPossible(a)
  {
    Send(snapshot, bytes, id, |TransferFrames(snapshot, bytes, id)|, true)
  }

  /**
    A run that gets stuck: a context is told its route, a second one registers and is not, and a snapshot is sent. The
    first accepts the begin, the second refuses it, and the first is left staging.
  */
  function StuckRun(snapshot: Snapshot, bytes: Data): (run: seq<Act>)
    requires Sendable(snapshot, bytes)
  {
    hide *;
    CanAnnounce(snapshot, bytes);
    var announce, send := Announce(snapshot.deviceKeyHash, 1), Whole(snapshot, bytes, 2);
    [Register, announce, Register, send]
  }

  lemma CanAnnounce(snapshot: Snapshot, bytes: Data)
    requires Sendable(snapshot, bytes)
    ensures IsPossible(Register) && IsPossible(Announce(snapshot.deviceKeyHash, 1))
    ensures IsLowerHex64(snapshot.deviceKeyHash) && snapshot.deviceKeyHash != []
  {
    LengthOfHash(snapshot.deviceKeyHash);
    hide IsLowerHex64;
  }

  lemma StuckRunSticks(w: World, snapshot: Snapshot, bytes: Data, answers: nat -> Answer)
    requires Sendable(snapshot, bytes)
    ensures var after := AllActed(w, [], StuckRun(snapshot, bytes), answers);
            |after| == 2 && after[0].staging && !after[1].staging
  {
    hide *;
    var told := INITIAL.(keyHash := snapshot.deviceKeyHash);
    CanAnnounce(snapshot, bytes);
    StuckRunIs(snapshot, bytes);
    var send := Whole(snapshot, bytes, 2);
    TellsRoute(w, snapshot.deviceKeyHash, answers);
    HalfBegun(w, send, answers);
    Registers(w, [], answers);
    Registers(w, [told], answers);
    FourActs(w, [], Register, Announce(snapshot.deviceKeyHash, 1), Register, send, answers);
  }

  /** Another one: the only context accepts the begin, and then a chunk, or the commit, cannot be sent. */
  function FailedSendRun(send: Action): (run: seq<Act>)
    requires send.Send? && IsPossible(send)
  {
    hide *;
    CanDeliver(send);
    CanAnnounce(send.snapshot, send.bytes);
    [Register, Announce(send.snapshot.deviceKeyHash, 1), send]
  }

  lemma FailedSendSticks(w: World, send: Action, answers: nat -> Answer)
    requires send.Send? && IsPossible(send) && send.heard
    requires 0 < send.delivered < |TransferFrames(send.snapshot, send.bytes, send.id)|
    ensures var after := AllActed(w, [], FailedSendRun(send), answers);
            |after| == 1 && after[0].staging
  {
    hide *;
    var announce := Announce(send.snapshot.deviceKeyHash, 1);
    CanDeliver(send);
    CanAnnounce(send.snapshot, send.bytes);
    FailedSendRunIs(send);
    TellsRoute(w, send.snapshot.deviceKeyHash, answers);
    Registers(w, [], answers);
    PartBegun(w, send, answers);
    ThreeAct(w, [], Register, announce, send, answers);
  }

  lemma FailedSendRunIs(send: Action)
    requires send.Send? && IsPossible(send)
    ensures FailedSendRun(send) == [Register, Announce(send.snapshot.deviceKeyHash, 1), send]
  {
    hide IsPossible;
  }

  lemma StuckRunIs(snapshot: Snapshot, bytes: Data)
    requires Sendable(snapshot, bytes)
    ensures IsPossible(Register)
    ensures Whole(snapshot, bytes, 2).Send? && Whole(snapshot, bytes, 2).delivered > 0
    ensures Whole(snapshot, bytes, 2).snapshot == snapshot
    ensures StuckRun(snapshot, bytes)
         == [Register, Announce(snapshot.deviceKeyHash, 1), Register, Whole(snapshot, bytes, 2)]
  {
  }

  lemma Registers(w: World, contexts: seq<State>, answers: nat -> Answer)
    ensures contexts == [] ==> Acted(w, contexts, Register, answers) == [INITIAL]
    ensures |contexts| == 1 ==> Acted(w, contexts, Register, answers) == [contexts[0], INITIAL]
  {
  }

  lemma ThreeAct(w: World, contexts: seq<State>, a: Act, b: Act, c: Act, answers: nat -> Answer)
    ensures AllActed(w, contexts, [a, b, c], answers)
         == Acted(w, Acted(w, Acted(w, contexts, a, answers), b, answers), c, answers)
  {
    hide Acted;
    hide IsPossible;
    var first := Acted(w, contexts, a, answers);
    var second := Acted(w, first, b, answers);
    assert [a, b, c][1..] == [b, c] && [b, c][1..] == [c] && [c][1..] == [];
    assert AllActed(w, contexts, [a, b, c], answers) == AllActed(w, first, [b, c], answers);
    assert AllActed(w, first, [b, c], answers) == AllActed(w, second, [c], answers);
    assert AllActed(w, second, [c], answers) == AllActed(w, Acted(w, second, c, answers), [], answers);
  }

  lemma FourActs(
      w: World, contexts: seq<State>, a: Act, b: Act, c: Act, d: Act, answers: nat -> Answer)
    ensures AllActed(w, contexts, [a, b, c, d], answers)
         == Acted(w, Acted(w, Acted(w, Acted(w, contexts, a, answers), b, answers), c, answers), d, answers)
  {
    hide Acted;
    hide IsPossible;
    ThreeAct(w, Acted(w, contexts, a, answers), b, c, d, answers);
    assert [a, b, c, d][1..] == [b, c, d];
  }

  lemma TellsRoute(w: World, keyHash: Data, answers: nat -> Answer)
    requires IsLowerHex64(keyHash)
    ensures Acted(w, [INITIAL], Announce(keyHash, 1), answers) == [INITIAL.(keyHash := keyHash)]
  {
    hide Receive;
    hide CommandFrame;
    hide IsLowerHex64;
    ReceivesCommand(w, [INITIAL], RouteFor(keyHash), 1, First(answers, 1));
  }

  lemma HalfBegun(w: World, a: Action, answers: nat -> Answer)
    requires a.Send? && IsPossible(a) && a.delivered > 0
    ensures var after := Acted(w, [INITIAL.(keyHash := a.snapshot.deviceKeyHash), INITIAL], a, answers);
            |after| == 2 && after[0].staging && !after[1].staging
  {
    LengthOfHash(a.snapshot.deviceKeyHash);
    hide PayloadCrc;
    hide Receive;
    hide CommandFrame;
    hide IsLowerHex64;
    hide Deliver;
    var contexts := [INITIAL.(keyHash := a.snapshot.deviceKeyHash), INITIAL];
    ReceivesCommand(w, contexts, BeginFor(a.snapshot, a.bytes), a.id, First(answers, 2));
    BeginAnswer(w, contexts, BeginFor(a.snapshot, a.bytes), a.id, First(answers, 2));
    hide FanOut;
    assert contexts[1].keyHash != a.snapshot.deviceKeyHash;
  }

  lemma PartBegun(w: World, a: Action, answers: nat -> Answer)
    requires a.Send? && Sendable(a.snapshot, a.bytes)
    requires 0 < a.delivered < |TransferFrames(a.snapshot, a.bytes, a.id)|
    ensures IsPossible(a)
    ensures var after := Acted(w, [INITIAL.(keyHash := a.snapshot.deviceKeyHash)], a, answers);
            |after| == 1 && after[0].staging
  {
    hide *;
    var contexts := [INITIAL.(keyHash := a.snapshot.deviceKeyHash)];
    OneTold(a.snapshot.deviceKeyHash);
    CanSend(a);
    IdleAgainIff(w, contexts, a, answers);
    SendActs(w, contexts, a, answers);
    SomebodyStages(Acted(w, contexts, a, answers));
  }

  lemma OneTold(keyHash: Data)
    ensures var contexts := [INITIAL.(keyHash := keyHash)];
            NobodyStaging(contexts) && !NoneOn(contexts, keyHash)
  {
    assert [INITIAL.(keyHash := keyHash)][0].keyHash == keyHash;
  }

  lemma CanSend(a: Action)
    requires a.Send? && Sendable(a.snapshot, a.bytes) && a.delivered <= |TransferFrames(a.snapshot, a.bytes, a.id)|
    ensures IsPossible(a)
  {
  }

  lemma SendActs(w: World, contexts: seq<State>, a: Action, answers: nat -> Answer)
    requires a.Send? && IsPossible(a)
    ensures Acted(w, contexts, a, answers) == Sent(w, contexts, a, answers).contexts
    ensures |Acted(w, contexts, a, answers)| == |contexts|
  {
    hide Sent;
    hide IsPossible;
  }

  lemma SomebodyStages(contexts: seq<State>)
    requires !NobodyStaging(contexts)
    ensures exists i :: 0 <= i < |contexts| && contexts[i].staging
  {
  }

  // ---------------------------------------------------------------- staying stuck

  /** Where context `k` is after an action, unless that unregistered it. */
  function Moved(k: nat, a: Action): Option<nat> {
    if !a.Unregister? || a.k > k then Some(k) else if a.k < k then Some(k - 1) else None
  }

  /** The action unregisters context `k`, or is an abort, a commit or a chunk of the App that takes it out of staging. */
  predicate Clears(c: State, k: nat, a: Action) {
    match a
    case Unregister(j) => j == k
    case Relay(Abort(_), _) => true
    case Relay(Commit(_, _), _) => true
    case Relay(Chunk(offset, data), _) => offset != |c.staged| || |data| > c.metadata.totalSize - |c.staged|
    case _ => false
  }

  ghost predicate IsStaging(contexts: seq<State>, k: Option<nat>) {
    k.Some? && k.value < |contexts| && contexts[k.value].staging
  }

  lemma RelayClearsIff(w: World, c: State, command: Command.Command, answer: Answer)
    requires c.staging && Command.Allowed(command)
    ensures Obeyed(w, c, command, answer).next.staging <==> !Clears(c, 0, Relay(command, 0))
  {
    hide AfterCommit;
    hide IsLowerHex64;
    CommitEnds(w, c, answer);
  }

  /** A staging context stays so under an action if and only if that does not clear it. */
  lemma StaysStagingIff(w: World, contexts: seq<State>, a: Action, answers: nat -> Answer, k: nat)
    requires IsPossible(a) && k < |contexts| && contexts[k].staging
    ensures IsStaging(Acted(w, contexts, a, answers), Moved(k, a)) <==> !Clears(contexts[k], k, a)
  {
    hide PayloadCrc;
    hide Receive;
    hide CommandFrame;
    hide IsLowerHex64;
    hide Deliver;
    hide StreamFrames;
    hide Obeyed;
    var some := First(answers, |contexts|);
    match a
    case Send(_, _, _, _, _) =>
      ReceivesCommand(w, contexts, BeginFor(a.snapshot, a.bytes), a.id, some);
      hide FanOut;
      BeginAnswer(w, contexts, BeginFor(a.snapshot, a.bytes), a.id, some);
    case Announce(keyHash, _) =>
      ReceivesCommand(w, contexts, RouteFor(keyHash), a.id, some);
      RouteKeepsStaging(w, contexts[k], keyHash, some[k]);
    case Relay(command, _) =>
      ReceivesCommand(w, contexts, command, a.id, some);
      RelayClearsIff(w, contexts[k], command, some[k]);
    case Register =>
    case Unregister(_) =>
  }

  lemma RouteKeepsStaging(w: World, c: State, keyHash: Data, answer: Answer)
    ensures Obeyed(w, c, RouteFor(keyHash), answer).next.staging == c.staging
  {
    hide AfterCommit;
  }

  /** While some context stages, sending a snapshot is refused, and no committer is called. */
  lemma SendIsRefused(w: World, contexts: seq<State>, a: Action, answers: nat -> Answer, k: nat)
    requires a.Send? && IsPossible(a) && k < |contexts| && contexts[k].staging
    ensures var r := Sent(w, contexts, a, answers);
            r.calls == Quiet(|contexts|) && forall response <- r.responses :: !response.ack.accepted
  {
    hide PayloadCrc;
    hide Receive;
    hide CommandFrame;
    hide IsLowerHex64;
    hide Deliver;
    hide StreamFrames;
    var some := First(answers, |contexts|);
    ReceivesCommand(w, contexts, BeginFor(a.snapshot, a.bytes), a.id, some);
    hide FanOut;
    BeginAnswer(w, contexts, BeginFor(a.snapshot, a.bytes), a.id, some);
  }

  /** Context `k` stages before and after each of the actions. */
  ghost predicate AlwaysStaging(
      w: World, contexts: seq<State>, k: Option<nat>, actions: seq<Act>, answers: nat -> Answer)
    decreases |actions|
  {
    && IsStaging(contexts, k)
    && (actions != [] ==>
          AlwaysStaging(w, Acted(w, contexts, actions[0], answers), Moved(k.value, actions[0]), actions[1..], answers))
  }

  /** No action clears context `k`, wherever it is by then. */
  ghost predicate NeverCleared(
      w: World, contexts: seq<State>, k: nat, actions: seq<Act>, answers: nat -> Answer)
    decreases |actions|
  {
    actions != [] ==>
      && k < |contexts| && !Clears(contexts[k], k, actions[0])
      && NeverCleared(
           w, Acted(w, contexts, actions[0], answers), Moved(k, actions[0]).value, actions[1..], answers)
  }

  /** A staging context stays so if and only if it is not unregistered and no abort, commit or refused chunk of the App
      reaches it; every snapshot sent meanwhile is refused, and no committer is called. */
  lemma {:induction false} StagingIsForGood(
      w: World, contexts: seq<State>, actions: seq<Act>, answers: nat -> Answer, k: nat, last: Action)
    requires k < |contexts| && contexts[k].staging
    requires last.Send? && IsPossible(last)
    ensures AlwaysStaging(w, contexts, Some(k), actions, answers) <==> NeverCleared(w, contexts, k, actions, answers)
    ensures NeverCleared(w, contexts, k, actions, answers) ==>
              var after := AllActed(w, contexts, actions, answers);
              var r := Sent(w, after, last, answers);
              r.calls == Quiet(|after|) && forall response <- r.responses :: !response.ack.accepted
    decreases |actions|
  {
    hide Acted;
    hide Sent;
    hide IsPossible;
    hide Clears;
    if actions == [] {
      SendIsRefused(w, contexts, last, answers, k);
    } else {
      StaysStagingIff(w, contexts, actions[0], answers, k);
      if !Clears(contexts[k], k, actions[0]) {
        StagingIsForGood(w, Acted(w, contexts, actions[0], answers), actions[1..], answers,
                         Moved(k, actions[0]).value, last);
      }
    }
  }

  function MovedBy(k: nat, actions: seq<Act>): Option<nat>
    decreases |actions|
  {
    if actions == [] then Some(k)
    else if Moved(k, actions[0]).None? then None
    else MovedBy(Moved(k, actions[0]).value, actions[1..])
  }

  /** What the daemon does by itself never clears a context; only the App can, or unregistering it. */
  lemma {:induction false} OnlyAppClears(
      w: World, contexts: seq<State>, actions: seq<Act>, answers: nat -> Answer, k: nat)
    requires k < |contexts| && contexts[k].staging
    requires forall a <- actions | a.Relay? :: a.command.Begin?
    ensures NeverCleared(w, contexts, k, actions, answers) <==> MovedBy(k, actions).Some?
    decreases |actions|
  {
    hide Acted;
    hide IsPossible;
    if actions != [] && Moved(k, actions[0]).Some? {
      StaysStagingIff(w, contexts, actions[0], answers, k);
      OnlyAppClears(w, Acted(w, contexts, actions[0], answers), actions[1..], answers, Moved(k, actions[0]).value);
    }
  }

  // ---------------------------------------------------------------- getting unstuck

  /** An abort or a commit of the App clears every context, whatever each was staging. */
  lemma AppClearsAll(w: World, contexts: seq<State>, a: Action, answers: nat -> Answer)
    requires a.Relay? && IsPossible(a) && (a.command.Abort? || a.command.Commit?)
    ensures NobodyStaging(Acted(w, contexts, a, answers))
  {
    hide PayloadCrc;
    hide Receive;
    hide CommandFrame;
    hide IsLowerHex64;
    hide Obeyed;
    var some := First(answers, |contexts|);
    ReceivesCommand(w, contexts, a.command, a.id, some);
    forall i | 0 <= i < |contexts|
      ensures !Obeyed(w, contexts[i], a.command, some[i]).next.staging
    {
      EndsStaging(w, contexts[i], a.command, some[i]);
    }
  }

  lemma EndsStaging(w: World, c: State, command: Command.Command, answer: Answer)
    requires command.Abort? || command.Commit?
    ensures !Obeyed(w, c, command, answer).next.staging
  {
    hide AfterCommit;
    CommitEnds(w, c, answer);
  }

  lemma {:induction false} ActsOn(
      w: World, contexts: seq<State>, actions: seq<Act>, last: Act, answers: nat -> Answer)
    ensures AllActed(w, contexts, actions + [last], answers)
         == Acted(w, AllActed(w, contexts, actions, answers), last, answers)
    decreases |actions|
  {
    hide Acted;
    hide IsPossible;
    if actions == [] {
      assert [last][1..] == [];
      assert actions + [last] == [last];
      assert AllActed(w, contexts, [last], answers) == AllActed(w, Acted(w, contexts, last, answers), [], answers);
    } else {
      assert (actions + [last])[1..] == actions[1..] + [last];
      ActsOn(w, Acted(w, contexts, actions[0], answers), actions[1..], last, answers);
    }
  }

  /** The stuck run, and then an abort of the App. */
  lemma AbortUnsticks(w: World, snapshot: Snapshot, bytes: Data, answers: nat -> Answer)
    requires Sendable(snapshot, bytes)
    ensures IsPossible(Relay(Command.Abort(0), 3))
    ensures NobodyStaging(
              AllActed(w, [], StuckRun(snapshot, bytes) + [Relay(Command.Abort(0), 3)], answers))
  {
    hide *;
    var abort := Relay(Command.Abort(0), 3);
    var run := StuckRun(snapshot, bytes);
    CanAbort();
    AppClearsAll(w, AllActed(w, [], run, answers), abort, answers);
    ActsOn(w, [], run, abort, answers);
  }

  lemma CanAbort()
    ensures IsPossible(Relay(Command.Abort(0), 3))
  {
  }
}
