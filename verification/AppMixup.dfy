/** What the daemon stores of the App's snapshots is not always what the driver took: a run, and what it depends on. */
module AppMixups {
  import opened Bytes
  import opened Wrappers
  import opened ViperDaemonProtocol
  import opened SnapshotSchema
  import opened ParameterStream
  import Command = SnapshotCommand
  import Apply = SnapshotApply
  import opened SnapshotDelivery
  import opened AppStagings
  import opened ApplyHandshake

  // ---------------------------------------------------------------- relaying

  /** The App streams a snapshot in one chunk, its commit not included. */
  function AppStreams(t: Transfer, attempt: Attempt, answers: nat -> Answer): seq<Event>
    requires |t.bytes| <= MAX_SNAPSHOT_SIZE
  {
    RoundTrip(Relay(BeginFor(t.snapshot, t.bytes), attempt), answers)
    + [Relay(Command.Chunk(0, t.bytes), attempt), Handle(answers, false)]
  }

  /** What the daemon keeps of it. */
  function Copy(t: Transfer, n: nat): AppStaging
    requires n <= |t.bytes| <= MAX_SNAPSHOT_SIZE
  {
    AppStaging(true, t.bytes[..n], |t.bytes|, PayloadCrc(t.bytes))
  }

  lemma RelayIsSent(w: World, s: State, c: Sent)
    requires IsQuiet(s) && s.phase.Idle? && c.id == s.nextId < LAST_ID && !c.command.Route?
    ensures Next(w, s, Relay(c.command, Goes))
         == Sending(
              s.(app := Kept(s.app, c.command), held := s.held && Kept(s.app, c.command).staging && !c.command.Begin?,
                 nextId := s.nextId + 1),
              if c.command.Chunk? then Idle else AwaitRelay(s.nextId, c.command), c)
  {
    hide Kept;
  }

  lemma RelayIsHeard(w: World, s: State, id: U64, c: Sent, r: Reaction)
    requires IsQuiet(s) && |r.responses| == 1 && r.responses[0].requestId == id
    ensures var t := AfterReaction(Sending(s, AwaitRelay(id, c.command), c), r, c);
            Taken(w, Polled(t)) == Relayed(w, t.(toDaemon := [], pending := None), r.responses[0].ack.accepted)
  {
    hide Relayed;
    var t := AfterReaction(Sending(s, AwaitRelay(id, c.command), c), r, c);
    assert t.toDaemon == [] + r.responses == [r.responses[0]];
    assert Polled(t) == t.(toDaemon := [], pending := Some(r.responses[0]));
    assert Polled(t).(pending := None) == t.(toDaemon := [], pending := None);
    assert PendingFor(id, Some(r.responses[0])) == 1;
  }

  /** The command was kept and sent, and the driver has answered. */
  function Reacting(s: State, c: Sent, r: Reaction): State
    requires !c.command.Chunk? && s.nextId < LAST_ID
  {
    var kept := Kept(s.app, c.command);
    var t := s.(app := kept, held := s.held && kept.staging && !c.command.Begin?, nextId := s.nextId + 1);
    AfterReaction(Sending(t, AwaitRelay(s.nextId, c.command), c), r, c).(toDaemon := [], pending := None)
  }

  lemma RelayRuns(w: World, s: State, c: Sent, r: Reaction, answers: nat -> Answer)
    requires IsQuiet(s) && s.phase.Idle? && c.id == s.nextId < LAST_ID && !c.command.Route? && !c.command.Chunk?
    requires r == FanOut(w, s.contexts, c.command, c.id, First(answers, |s.contexts|))
    requires |r.responses| == 1 && r.responses[0].requestId == c.id
    ensures Run(w, s, RoundTrip(Relay(c.command, Goes), answers)) == Relayed(w, Reacting(s, c, r), r.responses[0].ack.accepted)
  {
    var kept := Kept(s.app, c.command);
    var t := s.(app := kept, held := s.held && kept.staging && !c.command.Begin?, nextId := s.nextId + 1);
    var sent := Sending(t, AwaitRelay(s.nextId, c.command), c);
    assert sent.toDriver == [c] && sent.contexts == s.contexts && IsQuiet(t);
    assert Reacting(s, c, r) == AfterReaction(sent, r, c).(toDaemon := [], pending := None);
    hide *;
    RunRoundTrip(w, s, Relay(c.command, Goes), answers);
    RelayIsSent(w, s, c);
    HandleIsHandled(w, sent, answers);
    HandlesOne(w, sent, c, answers);
    RelayIsHeard(w, t, s.nextId, c, r);
  }

  /** Nothing is sent: the daemon keeps its copy, and that is all. */
  lemma UnsentRuns(w: World, s: State, c: Command.Command, attempt: Attempt, answers: nat -> Answer)
    requires IsQuiet(s) && s.phase.Idle? && attempt != Goes
    ensures Run(w, s, RoundTrip(Relay(c, attempt), answers)) == Relaying(s, c, attempt)
    ensures Run(w, s, [Relay(c, attempt), Handle(answers, false)]) == Relaying(s, c, attempt)
    ensures IsQuiet(Relaying(s, c, attempt)) && Relaying(s, c, attempt).phase.Idle?
  {
    RunRoundTrip(w, s, Relay(c, attempt), answers);
    RunTwo(w, s, Relay(c, attempt), Handle(answers, false));
    hide Run;
    hide Kept;
  }

  // ---------------------------------------------------------------- one transfer of the App

  lemma AppBegins(w: World, s: State, t: Transfer, answers: nat -> Answer)
    requires IsQuiet(s) && s.phase.Idle? && s.nextId < LAST_ID
    requires Sendable(t.snapshot, t.bytes) && AllReady(s.contexts, t.snapshot.deviceKeyHash)
    ensures Run(w, s, RoundTrip(Relay(BeginFor(t.snapshot, t.bytes), Goes), answers))
         == s.(nextId := s.nextId + 1, pending := None, app := Copy(t, 0), held := true,
               contexts := Staging(s.contexts, MetadataFor(t.snapshot, t.bytes), []))
  {
    var m, some := BeginMessage(t, s.nextId), First(answers, |s.contexts|);
    var r := FanOut(w, s.contexts, m.command, m.id, some);
    BeginIsBegin(t, s.nextId);
    hide *;
    BeginFansOut(w, s.contexts, t, s.nextId, some);
    RepliesYes(t, s.nextId);
    RelayRuns(w, s, m, r, answers);
    BeginIsHeldTo(w, s, t, m, r);
  }

  lemma BeginIsBegin(t: Transfer, id: U64)
    requires Sendable(t.snapshot, t.bytes)
    ensures 0 < |t.bytes| <= MAX_SNAPSHOT_SIZE
    ensures var m := BeginMessage(t, id);
            m.command == BeginFor(t.snapshot, t.bytes) && m.command.Begin? && m.id == id && Command.Allowed(m.command)
  {
    hide PayloadCrc;
    hide IsLowerHex64;
  }

  lemma RepliesYes(t: Transfer, id: U64)
    ensures BeginReply(t.snapshot, id).requestId == id && BeginReply(t.snapshot, id).ack.accepted
  {
  }

  lemma BeginIsHeldTo(w: World, s: State, t: Transfer, m: Sent, r: Reaction)
    requires IsQuiet(s) && s.phase.Idle? && |t.bytes| <= MAX_SNAPSHOT_SIZE && m.command == BeginFor(t.snapshot, t.bytes)
    requires s.nextId < LAST_ID
    ensures Relayed(w, Reacting(s, m, r), true)
         == s.(nextId := s.nextId + 1, pending := None, app := Copy(t, 0), held := true, contexts := r.contexts)
  {
    hide PayloadCrc;
    assert t.bytes[..0] == [];
  }

  lemma AppChunks(w: World, s: State, contexts: seq<Context>, t: Transfer, answers: nat -> Answer)
    requires IsQuiet(s) && s.phase.Idle? && s.nextId < LAST_ID && contexts != []
    requires 0 < |t.bytes| <= Command.MAX_CHUNK_BYTES && |t.bytes| <= MAX_SNAPSHOT_SIZE
    requires s.contexts == Staging(contexts, MetadataFor(t.snapshot, t.bytes), []) && s.app == Copy(t, 0)
    ensures Run(w, s, [Relay(Command.Chunk(0, t.bytes), Goes), Handle(answers, false)])
         == s.(nextId := s.nextId + 1, app := Copy(t, |t.bytes|),
               contexts := Staging(contexts, MetadataFor(t.snapshot, t.bytes), t.bytes))
  {
    var c := Command.Chunk(0, t.bytes);
    var metadata, some := MetadataFor(t.snapshot, t.bytes), First(answers, |contexts|);
    var m: Sent := Message(s.nextId, c);
    var now := s.(app := Copy(t, |t.bytes|), nextId := s.nextId + 1);
    CopyGrows(s.app, t);
    assert metadata.totalSize == |t.bytes| && m.command.Chunk?;
    var sent := Sending(now, Idle, m);
    assert sent.contexts == s.contexts && sent.toDriver == [m] && IsQuiet(now) && now.contexts == s.contexts;
    assert [] + t.bytes == t.bytes && now.(phase := Idle) == now;
    hide *;
    var r := FanOut(w, s.contexts, c, s.nextId, some);
    RunTwo(w, s, Relay(c, Goes), Handle(answers, false));
    RelayIsSent(w, s, m);
    HandleIsHandled(w, sent, answers);
    HandlesOne(w, sent, m, answers);
    ChunkDelivered(w, contexts, metadata, [], t.bytes, s.nextId, some);
    ChunkIsStaged(now, Idle, m, r);
  }

  lemma CopyGrows(a: AppStaging, t: Transfer)
    requires |t.bytes| <= MAX_SNAPSHOT_SIZE && a == Copy(t, 0)
    ensures Kept(a, Command.Chunk(0, t.bytes)) == Copy(t, |t.bytes|) && Copy(t, |t.bytes|).staging
  {
    hide PayloadCrc;
    assert [] + t.bytes == t.bytes;
  }

  /** Nothing of it is sent; the daemon keeps its copy all the same. */
  lemma AppStreamsUnsent(w: World, s: State, t: Transfer, attempt: Attempt, answers: nat -> Answer)
    requires IsQuiet(s) && s.phase.Idle? && s.nextId + 1 < LAST_ID && attempt != Goes
    requires Sendable(t.snapshot, t.bytes) && |t.bytes| <= Command.MAX_CHUNK_BYTES
    ensures var n := Run(w, s, AppStreams(t, attempt, answers));
            n == s.(nextId := n.nextId, app := Copy(t, |t.bytes|), held := false) && n.nextId <= s.nextId + 2
  {
    var begin, chunk := BeginFor(t.snapshot, t.bytes), Command.Chunk(0, t.bytes);
    BeginIsBegin(t, s.nextId);
    assert Command.Allowed(chunk);
    KeepsUnsent(s, t, attempt);
    var first, second := RoundTrip(Relay(begin, attempt), answers), [Relay(chunk, attempt), Handle(answers, false)];
    assert AppStreams(t, attempt, answers) == first + second;
    hide *;
    UnsentRuns(w, s, begin, attempt, answers);
    UnsentRuns(w, Relaying(s, begin, attempt), chunk, attempt, answers);
    RunOn(w, s, first, second);
  }

  lemma KeepsUnsent(s: State, t: Transfer, attempt: Attempt)
    requires s.phase.Idle? && s.nextId + 1 < LAST_ID && attempt != Goes && 0 < |t.bytes| <= MAX_SNAPSHOT_SIZE
    requires Command.Allowed(BeginFor(t.snapshot, t.bytes)) && Command.Allowed(Command.Chunk(0, t.bytes))
    ensures var n := Relaying(Relaying(s, BeginFor(t.snapshot, t.bytes), attempt), Command.Chunk(0, t.bytes), attempt);
            n == s.(nextId := n.nextId, app := Copy(t, |t.bytes|), held := false) && n.nextId <= s.nextId + 2
  {
    hide PayloadCrc;
    hide IsLowerHex64;
    var one := Relaying(s, BeginFor(t.snapshot, t.bytes), attempt);
    assert t.bytes[..0] == [];
    assert one.app == Copy(t, 0) && one.phase.Idle?;
    CopyGrows(one.app, t);
    hide Copy;
  }

  // ---------------------------------------------------------------- the App's commit

  /** The contexts take `a`, whatever the App commits; the daemon stores its own copy, which is of `b`. */
  lemma AppCommits(
      w: World, s: State, contexts: seq<Context>, a: Transfer, b: Transfer, request: CommitRequest, answers: nat -> Answer)
    requires IsQuiet(s) && s.phase.Idle? && s.nextId < LAST_ID && AllReady(contexts, a.snapshot.deviceKeyHash)
    requires Sendable(a.snapshot, a.bytes) && Means(w, a.bytes, request) && request.snapshot == a.snapshot
    requires s.contexts == Staging(contexts, MetadataFor(a.snapshot, a.bytes), a.bytes)
    requires AllAdopt(contexts, a.snapshot, answers)
    requires Sendable(b.snapshot, b.bytes) && s.app == Copy(b, |b.bytes|) && s.route == b.snapshot.deviceKeyHash
    requires DecodedSnapshot(b.bytes, w.hash) == Ok(b.snapshot)
    ensures var n := Run(w, s, RoundTrip(Relay(CommitFor(b.snapshot), Goes), answers));
            && n.stored == s.stored + [Stored(s.nextId, b, s.held)] && n.nextId == s.nextId + 1
            && |n.commits| == |s.commits| + 1 && n.commits[|s.commits|].id == s.nextId
            && AllTookIt(w, a, n.commits[|s.commits|])
  {
    var c := CommitFor(b.snapshot);
    CommitIsCommit(b.snapshot);
    CommitIsAllowed(b);
    var m: Sent := Message(s.nextId, c);
    var some := First(answers, |contexts|);
    var r := FanOut(w, s.contexts, c, s.nextId, some);
    assert a.bytes != [] && contexts != [] && |s.contexts| == |contexts|;
    MeansDecodes(w, a, request);
    hide *;
    CommitDelivered(w, contexts, a.bytes, c, request, s.nextId, some);
    DeliveredMeans(contexts, request, s.nextId, some, r);
    FirstAdopt(contexts, a.snapshot, answers);
    RelayRuns(w, s, m, r, answers);
    StagingFollows(contexts, MetadataFor(a.snapshot, a.bytes), a.bytes);
    FansOutAs(w, s, m, some, r);
    AcceptedByAll(r);
    CommitTakesFront(w, s.contexts, m, some, r, a.bytes);
    TookFrontTookAll(w, a, Commit(m.id, s.contexts, r.calls, r.contexts));
    CopyIsComplete(w, b);
    StoresCopy(w, s, m, r, b);
  }

  lemma CommitIsAllowed(t: Transfer)
    requires Sendable(t.snapshot, t.bytes)
    ensures Command.Allowed(CommitFor(t.snapshot))
  {
    hide IsLowerHex64;
  }

  lemma MeansDecodes(w: World, t: Transfer, request: CommitRequest)
    requires Means(w, t.bytes, request) && request.snapshot == t.snapshot
    ensures DecodedSnapshot(t.bytes, w.hash) == Ok(t.snapshot)
  {
  }

  lemma StagingFollows(contexts: seq<Context>, m: Apply.Metadata, bytes: Data)
    ensures AllFollow(Staging(contexts, m, bytes), bytes)
  {
  }

  lemma FansOutAs(w: World, s: State, m: Sent, answers: seq<Answer>, r: Reaction)
    requires |answers| == |s.contexts| && r == FanOut(w, s.contexts, m.command, m.id, answers)
    ensures Reacts(w, s.contexts, m, answers, r)
  {
    hide *;
    FanOutIsReacted(w, s.contexts, m, answers);
    ReactedReacts(w, s.contexts, m, answers, AllObey(w, s.contexts, m.command, answers));
  }

  lemma AcceptedByAll(r: Reaction)
    requires |r.responses| == 1 && r.responses[0].ack.accepted
    ensures AllAccepted(r)
  {
  }

  lemma CopyIsComplete(w: World, t: Transfer)
    requires Sendable(t.snapshot, t.bytes) && DecodedSnapshot(t.bytes, w.hash) == Ok(t.snapshot)
    ensures Complete(Copy(t, |t.bytes|), t.snapshot.deviceKeyHash, w.hash) == Some(t)
  {
    hide PayloadCrc;
    hide DecodedSnapshot;
    hide IsLowerHex64;
    assert t.bytes[..|t.bytes|] == t.bytes;
  }

  lemma StoresCopy(w: World, s: State, m: Sent, r: Reaction, b: Transfer)
    requires s.nextId < LAST_ID && m.command.Commit? && AllAccepted(r) && s.app.staging
    requires Complete(s.app, s.route, w.hash) == Some(b)
    ensures var n := Relayed(w, Reacting(s, m, r), true);
            && n.stored == s.stored + [Stored(s.nextId, b, s.held)] && n.nextId == s.nextId + 1
            && n.commits == s.commits + [Commit(m.id, s.contexts, r.calls, r.contexts)]
  {
    hide Complete;
  }

  // ---------------------------------------------------------------- without a begin nothing is stored

  /** While the daemon has no copy, and no begin of the App comes, nothing is stored. */
  lemma {:induction false} NothingIsStored(w: World, s: State, events: seq<Event>)
    requires !s.app.staging && forall e <- events | e.Relay? :: !e.command.Begin?
    ensures !Run(w, s, events).app.staging && Run(w, s, events).stored == s.stored
  {
    hide Next;
    if events != [] {
      var n := |events| - 1;
      NothingIsStored(w, s, events[..n]);
      StoresNothing(w, Run(w, s, events[..n]), events[n]);
    }
  }

  lemma StoresNothing(w: World, s: State, e: Event)
    requires !s.app.staging && (e.Relay? ==> !e.command.Begin?)
    ensures !Next(w, s, e).app.staging && Next(w, s, e).stored == s.stored
  {
    hide EncodedSnapshot;
    hide ApplyHandshake.Handled;
    hide BeginMessage;
    if e.Handle? && s.toDriver != [] {
      HandlingStores(w, s, e.answers, e.lost);
    }
  }

  lemma HandlingStores(w: World, s: State, answers: nat -> Answer, lost: bool)
    requires s.toDriver != []
    ensures var n := ApplyHandshake.Handled(w, s, answers, lost); n.app == s.app && n.stored == s.stored
  {
    hide Receive;
    hide CommandFrame;
  }

  /** A begin that reaches the driver while it stages another transfer is refused, and the daemon drops its copy. */
  lemma SecondBeginIsRefused(w: World, s: State, t: Transfer, answers: nat -> Answer)
    requires IsQuiet(s) && s.phase.Idle? && s.nextId < LAST_ID && Sendable(t.snapshot, t.bytes)
    requires s.contexts != [] && s.contexts[0].staging
    ensures var n := Run(w, s, RoundTrip(Relay(BeginFor(t.snapshot, t.bytes), Goes), answers));
            !n.app.staging && n.stored == s.stored
  {
    var m, some := BeginMessage(t, s.nextId), First(answers, |s.contexts|);
    var r := FanOut(w, s.contexts, m.command, m.id, some);
    BeginIsBegin(t, s.nextId);
    BeginAnswer(w, s.contexts, m.command, m.id, some);
    assert !AllReady(s.contexts, m.command.keyHash);
    hide *;
    RelayRuns(w, s, m, r, answers);
    RefusalForgets(w, s, m, r);
  }

  lemma RefusalForgets(w: World, s: State, m: Sent, r: Reaction)
    requires s.nextId < LAST_ID && m.command.Begin?
    ensures var n := Relayed(w, Reacting(s, m, r), false); !n.app.staging && n.stored == s.stored
  {
    hide Kept;
  }

  // ---------------------------------------------------------------- the run

  lemma RouteFansOut(w: World, keyHash: Data, id: U64, answers: seq<Answer>)
    requires |answers| == 1
    ensures var r := FanOut(w, [Apply.INITIAL], RouteFor(keyHash), id, answers);
            && r.contexts == [Apply.INITIAL.(keyHash := keyHash)]
            && |r.responses| == 1 && r.responses[0].requestId == id
  {
    hide Apply.AfterCommit;
  }

  lemma AnnounceRuns(w: World, s: State, answers: nat -> Answer)
    requires IsQuiet(s) && s.phase.Idle? && s.nextId < LAST_ID && s.contexts == [Apply.INITIAL] && IsLowerHex64(s.route)
    ensures Run(w, s, RoundTrip(Announce(true), answers))
         == s.(nextId := s.nextId + 1, pending := None, contexts := [Apply.INITIAL.(keyHash := s.route)])
  {
    var c := RouteFor(s.route);
    assert Command.Allowed(c) && c.Route?;
    var m: Sent := Message(s.nextId, c);
    var t, some := s.(nextId := s.nextId + 1), First(answers, 1);
    var sent := Sending(t, AwaitRoute(s.nextId), m);
    assert sent.toDriver == [m] && IsQuiet(t) && sent.contexts == s.contexts == [Apply.INITIAL];
    assert m.command == c && m.id == s.nextId;
    AnnounceIsSent(w, s, m);
    hide *;
    RunRoundTrip(w, s, Announce(true), answers);
    HandleIsHandled(w, sent, answers);
    HandlesOne(w, sent, m, answers);
    RouteFansOut(w, s.route, s.nextId, some);
    RouteIsHeard(w, t, s.nextId, m, FanOut(w, s.contexts, c, s.nextId, some));
  }

  lemma AnnounceIsSent(w: World, s: State, m: Sent)
    requires IsQuiet(s) && s.phase.Idle? && m.id == s.nextId < LAST_ID && m.command == RouteFor(s.route)
    ensures Next(w, s, Announce(true)) == Sending(s.(nextId := s.nextId + 1), AwaitRoute(s.nextId), m)
  {
    hide IsLowerHex64;
  }

  lemma RouteIsHeard(w: World, s: State, id: U64, m: Sent, r: Reaction)
    requires IsQuiet(s) && s.phase.Idle? && |r.responses| == 1 && r.responses[0].requestId == id && m.command.Route?
    ensures Taken(w, Polled(AfterReaction(Sending(s, AwaitRoute(id), m), r, m)))
         == s.(pending := None, contexts := r.contexts)
  {
    assert [] + r.responses == [r.responses[0]];
  }

  /** A context registers, and is told the route. */
  function ReadyRun(keyHash: Data, answers: nat -> Answer): seq<Event> {
    [Register, RouteChanges(keyHash)] + RoundTrip(Announce(true), answers)
  }

  lemma ReadyRuns(w: World, keyHash: Data, answers: nat -> Answer)
    requires IsLowerHex64(keyHash)
    ensures Run(w, START, ReadyRun(keyHash, answers))
         == START.(nextId := 2, route := keyHash, contexts := [Apply.INITIAL.(keyHash := keyHash)])
  {
    hide Run;
    hide IsLowerHex64;
    hide RoundTrip;
    RunTwo(w, START, Register, RouteChanges(keyHash));
    var s := START.(contexts := [Apply.INITIAL], route := keyHash);
    assert START.contexts + [Apply.INITIAL] == [Apply.INITIAL];
    RunOn(w, START, [Register, RouteChanges(keyHash)], RoundTrip(Announce(true), answers));
    AnnounceRuns(w, s, answers);
  }

  /** The App streams `a`, all of which arrives; then `b`, of which nothing may be sent; and then it commits. */
  function MixupRun(a: Transfer, b: Transfer, attempt: Attempt, answers: nat -> Answer): seq<Event>
    requires |a.bytes| <= MAX_SNAPSHOT_SIZE && |b.bytes| <= MAX_SNAPSHOT_SIZE
  {
    ReadyRun(a.snapshot.deviceKeyHash, answers)
    + AppStreams(a, Goes, answers)
    + AppStreams(b, attempt, answers)
    + RoundTrip(Relay(CommitFor(b.snapshot), Goes), answers)
  }

  /** What the two transfers must be: for one route, in one chunk each, and the driver can take the first. */
  ghost predicate CanMix(w: World, a: Transfer, b: Transfer, request: CommitRequest) {
    && Sendable(a.snapshot, a.bytes) && Sendable(b.snapshot, b.bytes)
    && |a.bytes| <= Command.MAX_CHUNK_BYTES && |b.bytes| <= Command.MAX_CHUNK_BYTES
    && a.snapshot.deviceKeyHash == b.snapshot.deviceKeyHash
    && Means(w, a.bytes, request) && request.snapshot == a.snapshot
    && DecodedSnapshot(b.bytes, w.hash) == Ok(b.snapshot)
  }

  /** `a` has arrived and is staged in the only context; nothing is stored or committed yet. */
  ghost predicate IsStaged(s: State, a: Transfer)
    requires |a.bytes| <= MAX_SNAPSHOT_SIZE
  {
    && IsQuiet(s) && s.phase.Idle? && s.nextId == 4 && s.stored == [] && s.commits == []
    && s.route == a.snapshot.deviceKeyHash && s.app == Copy(a, |a.bytes|)
    && s.contexts == Staging(OneTold(a), MetadataFor(a.snapshot, a.bytes), a.bytes)
  }

  function OneTold(a: Transfer): seq<Context> {
    [Apply.INITIAL.(keyHash := a.snapshot.deviceKeyHash)]
  }

  lemma FirstIsStaged(w: World, a: Transfer, answers: nat -> Answer)
    requires Sendable(a.snapshot, a.bytes) && |a.bytes| <= Command.MAX_CHUNK_BYTES
    ensures IsStaged(Run(w, START, ReadyRun(a.snapshot.deviceKeyHash, answers) + AppStreams(a, Goes, answers)), a)
  {
    var keyHash, ready := a.snapshot.deviceKeyHash, ReadyRun(a.snapshot.deviceKeyHash, answers);
    var s := START.(nextId := 2, route := keyHash, contexts := OneTold(a));
    var metadata := MetadataFor(a.snapshot, a.bytes);
    var t := s.(nextId := 3, pending := None, app := Copy(a, 0), held := true, contexts := Staging(OneTold(a), metadata, []));
    var begin := RoundTrip(Relay(BeginFor(a.snapshot, a.bytes), Goes), answers);
    var chunk := [Relay(Command.Chunk(0, a.bytes), Goes), Handle(answers, false)];
    var n := t.(nextId := 4, app := Copy(a, |a.bytes|), contexts := Staging(OneTold(a), metadata, a.bytes));
    assert |a.bytes| > 0 && IsLowerHex64(keyHash) && AllReady(OneTold(a), keyHash) by { LengthOfHash(keyHash); }
    assert IsQuiet(s) && IsQuiet(t) && IsStaged(n, a);
    assert AppStreams(a, Goes, answers) == begin + chunk && OneTold(a) != [];
    hide *;
    ReadyRuns(w, keyHash, answers);
    AppBegins(w, s, a, answers);
    AppChunks(w, t, OneTold(a), a, answers);
    RunOn(w, s, begin, chunk);
    RunOn(w, START, ready, begin + chunk);
  }

  /** One commit was accepted, at which every context took `a`; for that commit the daemon stored `b`. */
  ghost predicate TookOneStoredOther(w: World, s: State, a: Transfer, b: Transfer) {
    && |s.commits| == |s.stored| == 1 && s.commits[0].id == s.stored[0].id
    && AllTookIt(w, a, s.commits[0]) && s.stored[0].transfer == b
  }

  /**
    The driver takes `a`. The daemon stores `b` if and only if the begin of `b` could not be sent: it refuses the App's
    commands then, but keeps its copy.
  */
  lemma MixupIff(w: World, a: Transfer, b: Transfer, request: CommitRequest, attempt: Attempt, answers: nat -> Answer)
    requires CanMix(w, a, b, request) && answers(0).Adopts?
    ensures var n := Run(w, START, MixupRun(a, b, attempt, answers));
            if attempt == Goes then n.stored == [] else TookOneStoredOther(w, n, a, b)
  {
    hide *;
    MixParts(w, a, b, request);
    MixupIs(a, b, attempt, answers);
    var first := ReadyRun(a.snapshot.deviceKeyHash, answers) + AppStreams(a, Goes, answers);
    var second, commit := AppStreams(b, attempt, answers), RoundTrip(Relay(CommitFor(b.snapshot), Goes), answers);
    FirstIsStaged(w, a, answers);
    var s := Run(w, START, first);
    RunOn(w, START, first, second + commit);
    if attempt == Goes {
      SentStoresNothing(w, s, a, b, answers);
    } else {
      RunOn(w, s, second, commit);
      UnsentStoresOther(w, s, a, b, request, attempt, answers);
    }
  }

  lemma MixupIs(a: Transfer, b: Transfer, attempt: Attempt, answers: nat -> Answer)
    requires |a.bytes| <= MAX_SNAPSHOT_SIZE && |b.bytes| <= MAX_SNAPSHOT_SIZE
    ensures MixupRun(a, b, attempt, answers)
         == (ReadyRun(a.snapshot.deviceKeyHash, answers) + AppStreams(a, Goes, answers))
            + (AppStreams(b, attempt, answers) + RoundTrip(Relay(CommitFor(b.snapshot), Goes), answers))
  {
    hide ReadyRun;
    hide AppStreams;
    hide RoundTrip;
  }

  lemma MixParts(w: World, a: Transfer, b: Transfer, request: CommitRequest)
    requires CanMix(w, a, b, request)
    ensures Sendable(a.snapshot, a.bytes) && |a.bytes| <= Command.MAX_CHUNK_BYTES && |a.bytes| <= MAX_SNAPSHOT_SIZE
    ensures Sendable(b.snapshot, b.bytes) && |b.bytes| <= Command.MAX_CHUNK_BYTES && |b.bytes| <= MAX_SNAPSHOT_SIZE
    ensures a.snapshot.deviceKeyHash == b.snapshot.deviceKeyHash && a.snapshot.appGeneration != 0
    ensures Means(w, a.bytes, request) && request.snapshot == a.snapshot
    ensures DecodedSnapshot(b.bytes, w.hash) == Ok(b.snapshot)
  {
    hide IsLowerHex64;
    hide Means;
    hide DecodedSnapshot;
  }

  lemma SentStoresNothing(w: World, s: State, a: Transfer, b: Transfer, answers: nat -> Answer)
    requires |a.bytes| <= MAX_SNAPSHOT_SIZE && IsStaged(s, a) && Sendable(b.snapshot, b.bytes)
    ensures Run(w, s, AppStreams(b, Goes, answers) + RoundTrip(Relay(CommitFor(b.snapshot), Goes), answers)).stored == []
  {
    var begin := RoundTrip(Relay(BeginFor(b.snapshot, b.bytes), Goes), answers);
    var chunk: seq<Event> := [Relay(Command.Chunk(0, b.bytes), Goes), Handle(answers, false)];
    var commit := RoundTrip(Relay(CommitFor(b.snapshot), Goes), answers);
    assert AppStreams(b, Goes, answers) + commit == begin + (chunk + commit);
    assert forall e <- chunk + commit | e.Relay? :: !e.command.Begin?;
    assert s.contexts[0].staging;
    hide Run;
    hide Sendable;
    RunOn(w, s, begin, chunk + commit);
    SecondBeginIsRefused(w, s, b, answers);
    NothingIsStored(w, Run(w, s, begin), chunk + commit);
  }

  lemma UnsentStoresOther(
      w: World, s: State, a: Transfer, b: Transfer, request: CommitRequest, attempt: Attempt, answers: nat -> Answer)
    requires CanMix(w, a, b, request) && answers(0).Adopts? && attempt != Goes
    requires |a.bytes| <= MAX_SNAPSHOT_SIZE && IsStaged(s, a)
    ensures var n := Run(w, Run(w, s, AppStreams(b, attempt, answers)),
                         RoundTrip(Relay(CommitFor(b.snapshot), Goes), answers));
            TookOneStoredOther(w, n, a, b)
  {
    hide *;
    MixParts(w, a, b, request);
    StagedParts(s, a);
    OneAdopts(a, answers);
    AppStreamsUnsent(w, s, b, attempt, answers);
    var t := Run(w, s, AppStreams(b, attempt, answers));
    StillQuiet(s, t);
    AppCommits(w, t, OneTold(a), a, b, request, answers);
    TookAndStored(w, Run(w, t, RoundTrip(Relay(CommitFor(b.snapshot), Goes), answers)), t.nextId, a, b);
  }

  lemma TookAndStored(w: World, n: State, id: U64, a: Transfer, b: Transfer)
    requires n.stored == [Stored(id, b, false)]
    requires |n.commits| == 1 && n.commits[0].id == id && AllTookIt(w, a, n.commits[0])
    ensures TookOneStoredOther(w, n, a, b)
  {
  }

  lemma StillQuiet(s: State, t: State)
    requires IsQuiet(s) && t.toDriver == s.toDriver && t.toDaemon == s.toDaemon
    ensures IsQuiet(t)
  {
  }

  lemma StagedParts(s: State, a: Transfer)
    requires |a.bytes| <= MAX_SNAPSHOT_SIZE && IsStaged(s, a)
    ensures IsQuiet(s) && s.phase.Idle? && s.nextId == 4 < LAST_ID - 4 && s.stored == [] && s.commits == []
    ensures s.app == Copy(a, |a.bytes|)
    ensures s.route == a.snapshot.deviceKeyHash && AllReady(OneTold(a), a.snapshot.deviceKeyHash)
    ensures s.contexts == Staging(OneTold(a), MetadataFor(a.snapshot, a.bytes), a.bytes)
  {
    hide PayloadCrc;
  }

  lemma OneAdopts(a: Transfer, answers: nat -> Answer)
    requires answers(0).Adopts? && a.snapshot.appGeneration != 0
    ensures AllAdopt(OneTold(a), a.snapshot, answers)
  {
  }

  // ---------------------------------------------------------------- another run

  /** The App streams `a`, all of which arrives; the context it is staged in goes, a new one comes and is told the route;
      the daemon restores `b`, of which the commit cannot be sent; and then the App commits. */
  function RestoreRun(a: Transfer, b: Transfer, answers: nat -> Answer): seq<Event>
    requires |a.bytes| <= MAX_SNAPSHOT_SIZE && |b.bytes| <= MAX_SNAPSHOT_SIZE
  {
    ReadyRun(a.snapshot.deviceKeyHash, answers)
    + AppStreams(a, Goes, answers)
    + Replaced(b, answers)
    + RoundTrip(Relay(CommitFor(a.snapshot), Goes), answers)
  }

  function Replaced(b: Transfer, answers: nat -> Answer): seq<Event>
    requires |b.bytes| <= MAX_SNAPSHOT_SIZE
  {
    [Unregister(0), Register] + (RoundTrip(Announce(true), answers)
    + (RoundTrip(Begin(b.snapshot, true), answers) + (ChunkRun(b.bytes, 0, answers) + [SendFails])))
  }

  /** The driver takes `b`, and the daemon stores `a`. */
  lemma RestoreMixes(w: World, a: Transfer, b: Transfer, request: CommitRequest, answers: nat -> Answer)
    requires CanMix(w, b, a, request) && answers(0).Adopts? && EncodedSnapshot(b.snapshot, w.hash) == Ok(b.bytes)
    ensures TookOneStoredOther(w, Run(w, START, RestoreRun(a, b, answers)), b, a)
  {
    hide *;
    MixParts(w, b, a, request);
    RestoreIs(a, b, answers);
    var first := ReadyRun(a.snapshot.deviceKeyHash, answers) + AppStreams(a, Goes, answers);
    var commit := RoundTrip(Relay(CommitFor(a.snapshot), Goes), answers);
    FirstIsStaged(w, a, answers);
    var s := Run(w, START, first);
    StagedParts(s, a);
    RunOn(w, START, first, Replaced(b, answers) + commit);
    RunOn(w, s, Replaced(b, answers), commit);
    var t := Run(w, s, Replaced(b, answers));
    ReplacedRuns(w, s, a, b, answers);
    StillQuiet(s, t);
    OneAdopts(b, answers);
    SameRoute(a, b);
    AppCommits(w, t, OneTold(b), b, a, request, answers);
    TookAndStored(w, Run(w, t, commit), t.nextId, b, a);
  }

  lemma RestoreIs(a: Transfer, b: Transfer, answers: nat -> Answer)
    requires |a.bytes| <= MAX_SNAPSHOT_SIZE && |b.bytes| <= MAX_SNAPSHOT_SIZE
    ensures RestoreRun(a, b, answers)
         == (ReadyRun(a.snapshot.deviceKeyHash, answers) + AppStreams(a, Goes, answers))
            + (Replaced(b, answers) + RoundTrip(Relay(CommitFor(a.snapshot), Goes), answers))
  {
    hide ReadyRun;
    hide AppStreams;
    hide RoundTrip;
    hide Replaced;
  }

  lemma SameRoute(a: Transfer, b: Transfer)
    requires a.snapshot.deviceKeyHash == b.snapshot.deviceKeyHash && AllReady(OneTold(a), a.snapshot.deviceKeyHash)
    ensures OneTold(b) == OneTold(a) && AllReady(OneTold(b), b.snapshot.deviceKeyHash)
  {
    hide AllReady;
  }

  lemma ReplacedRuns(w: World, s: State, a: Transfer, b: Transfer, answers: nat -> Answer)
    requires |a.bytes| <= MAX_SNAPSHOT_SIZE && IsStaged(s, a)
    requires Sendable(b.snapshot, b.bytes) && EncodedSnapshot(b.snapshot, w.hash) == Ok(b.bytes)
    requires a.snapshot.deviceKeyHash == b.snapshot.deviceKeyHash
    ensures Run(w, s, Replaced(b, answers))
         == s.(nextId := 6, pending := None, held := false,
               contexts := Staging(OneTold(b), MetadataFor(b.snapshot, b.bytes), b.bytes))
  {
    var one := s.(contexts := [Apply.INITIAL]);
    var told := s.(contexts := OneTold(b), nextId := 5, pending := None);
    var announce, begin := RoundTrip(Announce(true), answers), RoundTrip(Begin(b.snapshot, true), answers);
    var chunks := ChunkRun(b.bytes, 0, answers);
    hide *;
    StagedParts(s, a);
    IsSendable(b);
    Renewed(w, s, a, one, told, b);
    RunTwo(w, s, Unregister(0), Register);
    AnnounceRuns(w, one, answers);
    BeginRuns(w, told, b, answers);
    AllChunksRun(w, told, OneTold(b), 5, b, 0, answers);
    RunOn(w, told, begin, chunks + [SendFails]);
    RunOn(w, Midway(told, OneTold(b), 5, b, 0), chunks, [SendFails]);
    FailsMidway(w, told, OneTold(b), 5, b);
    RunOn(w, one, announce, begin + (chunks + [SendFails]));
    RunOn(w, s, [Unregister(0), Register], announce + (begin + (chunks + [SendFails])));
    ReplacedIs(b, answers);
  }

  lemma IsSendable(t: Transfer)
    requires Sendable(t.snapshot, t.bytes)
    ensures 0 < |t.bytes| <= MAX_SNAPSHOT_SIZE && IsLowerHex64(t.snapshot.deviceKeyHash)
  {
    hide IsLowerHex64;
  }

  lemma ReplacedIs(b: Transfer, answers: nat -> Answer)
    requires |b.bytes| <= MAX_SNAPSHOT_SIZE
    ensures Replaced(b, answers)
         == [Unregister(0), Register] + (RoundTrip(Announce(true), answers)
            + (RoundTrip(Begin(b.snapshot, true), answers) + (ChunkRun(b.bytes, 0, answers) + [SendFails])))
  {
    hide RoundTrip;
    hide ChunkRun;
  }

  lemma Renewed(w: World, s: State, a: Transfer, one: State, told: State, b: Transfer)
    requires |a.bytes| <= MAX_SNAPSHOT_SIZE && IsStaged(s, a) && Sendable(b.snapshot, b.bytes)
    requires a.snapshot.deviceKeyHash == b.snapshot.deviceKeyHash
    requires one == s.(contexts := [Apply.INITIAL])
    requires told == s.(contexts := OneTold(b), nextId := 5, pending := None)
    ensures Next(w, Next(w, s, Unregister(0)), Register) == one && IsQuiet(one) && one.phase.Idle?
    ensures one.nextId == 4 < LAST_ID - 4 && one.route == b.snapshot.deviceKeyHash
    ensures told == one.(nextId := 5, pending := None, contexts := [Apply.INITIAL.(keyHash := one.route)])
    ensures IsQuiet(told) && told.phase.Idle? && told.contexts == OneTold(b) != []
    ensures AllReady(told.contexts, b.snapshot.deviceKeyHash)
  {
    LengthOfHash(b.snapshot.deviceKeyHash);
    hide PayloadCrc;
    hide IsLowerHex64;
    assert s.contexts[..0] + s.contexts[1..] == [];
  }

  lemma FailsMidway(w: World, s: State, contexts: seq<Context>, id: U64, t: Transfer)
    requires |t.bytes| <= MAX_SNAPSHOT_SIZE && s.phase.Idle?
    ensures Run(w, Midway(s, contexts, id, t, |t.bytes|), [SendFails])
         == s.(nextId := id + 1, pending := None, held := false,
               contexts := Staging(contexts, MetadataFor(t.snapshot, t.bytes), t.bytes))
  {
    var now := Midway(s, contexts, id, t, |t.bytes|);
    assert [SendFails][..0] == [] && t.bytes[..|t.bytes|] == t.bytes;
    assert Run(w, now, [SendFails]) == Next(w, Run(w, now, []), SendFails);
    hide Staging;
    hide MetadataFor;
  }

  /** Two such snapshots: the sample with the master switch on, and with it off. */
  lemma SamplesMix(catalog: Catalog)
    ensures var on, off := Sample(), Sample().(masterEnabled := false);
            && Encodable(on) && Encodable(off) && on != off && EncodedSnapshot(on, SampleHash) == Ok(CanonicalWire(on))
            && CanMix(Apply.World(SampleHash, catalog), Transfer(on, CanonicalWire(on)), Transfer(off, CanonicalWire(off)),
                      Apply.CommitRequest.CommitRequest(on, [], []))
  {
    var w := Apply.World(SampleHash, catalog);
    SamplesAreValid();
    hide *;
    var on, off := Sample(), Sample().(masterEnabled := false);
    SampleSends(on);
    SampleSends(off);
    SnapshotSchema.DecodeEncode(on, SampleHash);
    SnapshotSchema.DecodeEncode(off, SampleHash);
    NothingDecodes(catalog);
    MeansIf(w, CanonicalWire(on), Apply.CommitRequest.CommitRequest(on, [], []));
    MixesIf(w, Transfer(on, CanonicalWire(on)), Transfer(off, CanonicalWire(off)),
            Apply.CommitRequest.CommitRequest(on, [], []));
  }

  lemma SamplesAreValid()
    ensures var on, off := Sample(), Sample().(masterEnabled := false);
            && IsValid(on, SampleHash) && IsValid(off, SampleHash) && on != off && on.(masterEnabled := true) == on
            && on.parameters == on.iemParameters == []
  {
  }

  lemma NothingDecodes(catalog: Catalog)
    ensures DecodedStream(catalog, []) == Ok([])
  {
  }

  lemma MixesIf(w: World, a: Transfer, b: Transfer, request: CommitRequest)
    requires Sendable(a.snapshot, a.bytes) && Sendable(b.snapshot, b.bytes)
    requires |a.bytes| <= Command.MAX_CHUNK_BYTES && |b.bytes| <= Command.MAX_CHUNK_BYTES
    requires a.snapshot.deviceKeyHash == b.snapshot.deviceKeyHash
    requires Means(w, a.bytes, request) && request.snapshot == a.snapshot
    requires DecodedSnapshot(b.bytes, w.hash) == Ok(b.snapshot)
    ensures CanMix(w, a, b, request)
  {
  }

  lemma SampleSends(s: Snapshot)
    requires IsValid(s, SampleHash) && s.(masterEnabled := true) == Sample()
    ensures Encodable(s) && Sendable(s, CanonicalWire(s)) && |CanonicalWire(s)| <= Command.MAX_CHUNK_BYTES
  {
    SendableIfValid(s, SampleHash);
    WireLength(s, FlagByte(s.masterEnabled), FlagByte(s.globalMode), 0);
    hide Wire;
    hide IsValid;
    hide Sendable;
  }
}
