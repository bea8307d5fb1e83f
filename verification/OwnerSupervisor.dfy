/** When the daemon spawns the process that owns the audio effect, and what it believes about it. */
module OwnerSupervision {
  import opened Bytes

  const HANDSHAKE_TIMEOUT: nat := 4000
  const SPAWN_RETRY_DELAY: nat := 2000
  const MAX_SPAWN_ATTEMPTS: nat := 3

  datatype OwnerState = ABSENT | STARTING | OWNED | FAILED

  /** A session as one client reports it. */
  datatype SessionKey = SessionKey(audioSessionId: U32, clientUid: U32)

  /** The supervisor's fields. Times are milliseconds of the caller's clock, 0 where none was set. */
  datatype Supervisor = Supervisor(
    state: OwnerState,
    pid: int,
    pidIsOurs: bool,
    effectId: U32,
    hasControl: bool,
    restarts: nat,
    spawnFailures: nat,
    lastFailureReason: U32,
    spawnAttempts: nat,
    nextSpawnAttempt: nat,
    handshakeDeadline: nat,
    respawnBackoffPending: bool,
    handshakeArmPending: bool,
    trackedSessions: set<SessionKey>)

  const INITIAL := Supervisor(ABSENT, 0, false, 0, false, 0, 0, 0, 0, 0, 0, false, false, {})

  /** A poll with what spawning would return, and the callbacks. */
  datatype Event =
    | Poll(shouldOwn: bool, now: nat, spawned: int)
    | Connected(pid: int)
    | Seed(pid: int, alive: bool)
    | Owned(effectId: U32, hasControl: bool)
    | OwnerFailed(reason: U32)
    | Released
    | SessionDelta(key: SessionKey, appeared: bool)
    | Disconnected

  function Forgotten(s: Supervisor): Supervisor {
    s.(effectId := 0, hasControl := false, trackedSessions := {})
  }

  function Unlinked(s: Supervisor): Supervisor {
    s.(pid := 0, pidIsOurs := false)
  }

  /** The deadlines that callbacks left for the next poll to set. */
  function Armed(s: Supervisor, now: nat): Supervisor {
    var t := if s.handshakeArmPending
             then s.(handshakeArmPending := false, handshakeDeadline := now + HANDSHAKE_TIMEOUT) else s;
    if t.respawnBackoffPending
      then t.(respawnBackoffPending := false, nextSpawnAttempt := now + SPAWN_RETRY_DELAY) else t
  }

  /** A poll of an armed supervisor spawns. */
  predicate Spawns(s: Supervisor, now: nat) {
    s.state == ABSENT && now >= s.nextSpawnAttempt && s.spawnAttempts < MAX_SPAWN_ATTEMPTS
  }

  function AfterSpawn(s: Supervisor, now: nat, pid: int): Supervisor {
    var t := s.(spawnAttempts := s.spawnAttempts + 1);
    if pid <= 0 then
      t.(spawnFailures := s.spawnFailures + 1, nextSpawnAttempt := now + SPAWN_RETRY_DELAY,
         state := if t.spawnAttempts >= MAX_SPAWN_ATTEMPTS then FAILED else s.state)
    else t.(pid := pid, pidIsOurs := true, state := STARTING, handshakeDeadline := now + HANDSHAKE_TIMEOUT)
  }

  function AfterPoll(s: Supervisor, shouldOwn: bool, now: nat, spawned: int): Supervisor {
    if !shouldOwn then
      if s.state != ABSENT then
        Forgotten(Unlinked(s)).(state := ABSENT, spawnAttempts := 0, nextSpawnAttempt := 0, handshakeDeadline := 0,
                                respawnBackoffPending := false)
      else s.(respawnBackoffPending := false)
    else
      var t := Armed(s, now);
      match t.state
      case OWNED => t
      case FAILED => t
      case STARTING =>
        if now < t.handshakeDeadline then t
        else Forgotten(Unlinked(t)).(restarts := t.restarts + 1, state := ABSENT, nextSpawnAttempt := now + SPAWN_RETRY_DELAY)
      case ABSENT =>
        if now < t.nextSpawnAttempt then t
        else if t.spawnAttempts >= MAX_SPAWN_ATTEMPTS then t.(state := FAILED)
        else AfterSpawn(t, now, spawned)
  }

  function After(s: Supervisor, e: Event): Supervisor {
    match e
    case Poll(shouldOwn, now, spawned) => AfterPoll(s, shouldOwn, now, spawned)
    case Connected(pid) =>
      var t := s.(pid := pid, pidIsOurs := s.pidIsOurs && s.state != ABSENT);
      if s.state != OWNED then t.(state := STARTING, handshakeArmPending := true) else t
    case Seed(pid, alive) =>
      if s.state != ABSENT || pid <= 0 || !alive then s
      else s.(pid := pid, pidIsOurs := false, state := STARTING, handshakeArmPending := true)
    case Owned(effectId, hasControl) =>
      s.(effectId := effectId, hasControl := hasControl, lastFailureReason := 0, state := OWNED, spawnAttempts := 0,
         handshakeDeadline := 0)
    case OwnerFailed(reason) =>
      s.(lastFailureReason := reason, effectId := 0, hasControl := false, state := FAILED, handshakeDeadline := 0)
    case Released => Forgotten(s).(state := if s.state == OWNED then STARTING else s.state)
    case SessionDelta(key, appeared) =>
      s.(trackedSessions := if appeared then s.trackedSessions + {key} else s.trackedSessions - {key})
    case Disconnected =>
      Unlinked(Forgotten(s)).(restarts := s.restarts + if s.state == OWNED || s.state == STARTING then 1 else 0,
                              state := ABSENT, handshakeDeadline := 0, respawnBackoffPending := true)
  }

  /** The event makes the supervisor try to spawn a process. */
  predicate IsSpawn(s: Supervisor, e: Event) {
    e.Poll? && e.shouldOwn && Spawns(Armed(s, e.now), e.now)
  }

  /** The event refills the spawn budget. */
  predicate IsReset(s: Supervisor, e: Event) {
    e.Owned? || (e.Poll? && !e.shouldOwn && s.state != ABSENT)
  }

  // ---------------------------------------------------------------- whole runs

  function Run(events: seq<Event>): Supervisor {
    if events == [] then INITIAL else After(Run(events[..|events| - 1]), events[|events| - 1])
  }

  predicate SpawnsAt(events: seq<Event>, k: nat)
    requires k < |events|
  {
    IsSpawn(Run(events[..k]), events[k])
  }

  /** Spawns among events `i` to `j`, `j` excluded. */
  function SpawnsIn(events: seq<Event>, i: nat, j: nat): nat
    requires i <= j <= |events|
  {
    if i == j then 0 else SpawnsIn(events, i, j - 1) + if SpawnsAt(events, j - 1) then 1 else 0
  }

  /** Messages as the protocol decodes them: an owner that has the effect names it. */
  ghost predicate OwnersNameEffects(events: seq<Event>) {
    forall k | 0 <= k < |events| && events[k].Owned? :: events[k].effectId != 0
  }

  ghost predicate ClockRuns(events: seq<Event>) {
    forall i, j | 0 <= i < j < |events| && events[i].Poll? && events[j].Poll? :: events[i].now <= events[j].now
  }

  lemma RunStep(events: seq<Event>, k: nat)
    requires k < |events|
    ensures Run(events[..k + 1]) == After(Run(events[..k]), events[k])
  {
    assert events[..k + 1][..k] == events[..k];
  }

  // ---------------------------------------------------------------- the spawn budget

  lemma AttemptsMove(s: Supervisor, e: Event)
    requires s.spawnAttempts <= MAX_SPAWN_ATTEMPTS
    ensures After(s, e).spawnAttempts
         == if IsReset(s, e) then 0 else s.spawnAttempts + if IsSpawn(s, e) then 1 else 0
    ensures After(s, e).spawnAttempts <= MAX_SPAWN_ATTEMPTS
  {
  }

  lemma {:induction false} AttemptsBounded(events: seq<Event>)
    ensures Run(events).spawnAttempts <= MAX_SPAWN_ATTEMPTS
  {
    if events != [] {
      AttemptsBounded(events[..|events| - 1]);
      AttemptsMove(Run(events[..|events| - 1]), events[|events| - 1]);
    }
  }

  lemma {:induction false} SpawnsAreAttempts(events: seq<Event>, i: nat, j: nat)
    requires i <= j <= |events|
    requires forall k | i <= k < j :: !IsReset(Run(events[..k]), events[k])
    ensures Run(events[..j]).spawnAttempts == Run(events[..i]).spawnAttempts + SpawnsIn(events, i, j)
    decreases j
  {
    hide After;
    if i < j {
      SpawnsAreAttempts(events, i, j - 1);
      RunStep(events, j - 1);
      AttemptsBounded(events[..j - 1]);
      hide Run;
      AttemptsMove(Run(events[..j - 1]), events[j - 1]);
    }
  }

  /** At most three processes are spawned between one refill of the budget and the next. */
  lemma BudgetHolds(events: seq<Event>, i: nat, j: nat)
    requires i <= j <= |events|
    requires forall k | i <= k < j :: !IsReset(Run(events[..k]), events[k])
    ensures SpawnsIn(events, i, j) <= MAX_SPAWN_ATTEMPTS
  {
    hide Run;
    SpawnsAreAttempts(events, i, j);
    AttemptsBounded(events[..j]);
  }

  // ---------------------------------------------------------------- spacing

  /** Whenever the supervisor is without an owner after a spawn at `time`, the next has been or will be put off. */
  ghost predicate PutOff(s: Supervisor, time: nat) {
    s.state == ABSENT ==> s.respawnBackoffPending || s.nextSpawnAttempt >= time + SPAWN_RETRY_DELAY
  }

  lemma SpawnPutsOff(s: Supervisor, e: Event)
    requires IsSpawn(s, e)
    ensures PutOff(After(s, e), e.now)
  {
  }

  lemma StaysPutOff(s: Supervisor, e: Event, time: nat)
    requires PutOff(s, time) && (e.Poll? ==> e.shouldOwn && e.now >= time)
    ensures PutOff(After(s, e), time)
    ensures IsSpawn(s, e) ==> e.now >= time + SPAWN_RETRY_DELAY
  {
  }

  lemma {:induction false} PutOffUntil(events: seq<Event>, i: nat, j: nat)
    requires i < j <= |events| && SpawnsAt(events, i) && ClockRuns(events)
    requires forall k | i <= k < j && events[k].Poll? :: events[k].shouldOwn
    ensures PutOff(Run(events[..j]), events[i].now)
    decreases j
  {
    hide After;
    hide PutOff;
    RunStep(events, j - 1);
    if j == i + 1 {
      SpawnPutsOff(Run(events[..i]), events[i]);
    } else {
      PutOffUntil(events, i, j - 1);
      hide Run;
      StaysPutOff(Run(events[..j - 1]), events[j - 1], events[i].now);
    }
  }

  /** Two spawns are at least two seconds apart as long as an owner stays wanted, whatever callbacks come between. */
  lemma SpawnsAreSpaced(events: seq<Event>, i: nat, j: nat)
    requires i < j < |events| && SpawnsAt(events, i) && SpawnsAt(events, j) && ClockRuns(events)
    requires forall k | i <= k <= j && events[k].Poll? :: events[k].shouldOwn
    ensures events[j].now >= events[i].now + SPAWN_RETRY_DELAY
  {
    PutOffUntil(events, i, j);
    StaysPutOff(Run(events[..j]), events[j], events[i].now);
  }

  // ---------------------------------------------------------------- the effect

  lemma ArmedKeepsEffect(s: Supervisor, now: nat)
    ensures Armed(s, now).effectId == s.effectId && Armed(s, now).state == s.state
  {
  }

  lemma EffectStep(s: Supervisor, e: Event)
    requires s.effectId != 0 <==> s.state == OWNED
    requires e.Owned? ==> e.effectId != 0
    ensures After(s, e).effectId != 0 <==> After(s, e).state == OWNED
  {
    if e.Poll? {
      ArmedKeepsEffect(s, e.now);
      hide Armed;
    } else {
      hide AfterPoll;
    }
  }

  /** An effect is known exactly while it is owned. */
  lemma {:induction false} EffectIffOwned(events: seq<Event>)
    requires OwnersNameEffects(events)
    ensures Run(events).effectId != 0 <==> Run(events).state == OWNED
  {
    if events != [] {
      EffectIffOwned(events[..|events| - 1]);
      EffectStep(Run(events[..|events| - 1]), events[|events| - 1]);
    }
  }

  // ---------------------------------------------------------------- when it spawns

  /** The run of an owner that never calls back, polled at three times. */
  function Silent(t: nat, a: nat, b: nat, p: int, q: int, r: int): seq<Event> {
    [Poll(true, t, p), Poll(true, a, q), Poll(true, b, r)]
  }

  lemma SilentPrefixes(t: nat, a: nat, b: nat, p: int, q: int, r: int)
    ensures var run := Silent(t, a, b, p, q, r);
            && Run(run[..0]) == INITIAL
            && Run(run[..1]) == After(INITIAL, Poll(true, t, p))
            && Run(run[..2]) == After(After(INITIAL, Poll(true, t, p)), Poll(true, a, q))
            && Run(run) == After(After(After(INITIAL, Poll(true, t, p)), Poll(true, a, q)), Poll(true, b, r))
  {
    var run := Silent(t, a, b, p, q, r);
    RunStep(run, 0);
    RunStep(run, 1);
    RunStep(run, 2);
    assert run[..3] == run;
  }

  /** A process that never answers is given up four seconds after it was started, and replaced two seconds later. */
  lemma SilentOwnerIsReplaced(t: nat, a: nat, b: nat, p: int, q: int, r: int)
    requires p > 0 && t <= a <= b
    ensures var run := Silent(t, a, b, p, q, r);
            && SpawnsAt(run, 0) && !SpawnsAt(run, 1)
            && (SpawnsAt(run, 2) <==> a >= t + 4000 && b >= a + 2000)
            && Run(run[..2]).restarts == (if a >= t + 4000 then 1 else 0)
  {
    SilentPrefixes(t, a, b, p, q, r);
    hide Run;
  }

  /** A spawn that fails is tried again two seconds later, and the third failure is the last. */
  lemma FailedSpawnsEnd(t: nat, a: nat, b: nat, p: int, q: int, r: int)
    requires p <= 0 && q <= 0 && r <= 0 && t <= a <= b
    ensures var run := Silent(t, a, b, p, q, r);
            && SpawnsAt(run, 0)
            && (SpawnsAt(run, 1) <==> a >= t + 2000)
            && (Run(run).state == FAILED <==> a >= t + 2000 && b >= a + 2000)
            && Run(run).spawnFailures == SpawnsIn(run, 0, 3)
  {
    SilentPrefixes(t, a, b, p, q, r);
    hide Run;
    var run := Silent(t, a, b, p, q, r);
    assert SpawnsIn(run, 0, 3) == SpawnsIn(run, 0, 2) + if SpawnsAt(run, 2) then 1 else 0;
    assert SpawnsIn(run, 0, 2) == SpawnsIn(run, 0, 1) + if SpawnsAt(run, 1) then 1 else 0;
  }

  // ---------------------------------------------------------------- what it kills

  /** The processes an event kills. */
  function Kills(s: Supervisor, e: Event): seq<int> {
    if s.pid > 0 && s.pidIsOurs && e.Poll? && s.state != ABSENT
       && (!e.shouldOwn || (s.state == STARTING && e.now >= Armed(s, e.now).handshakeDeadline))
      then [s.pid] else []
  }

  function Spawned(events: seq<Event>): set<int> {
    if events == [] then {} else
      var before := events[..|events| - 1];
      var e := events[|events| - 1];
      Spawned(before) + if IsSpawn(Run(before), e) then {e.spawned} else {}
  }

  /** Stopping now would kill nothing but a process that was spawned. */
  predicate KillsOwn(events: seq<Event>) {
    forall p | p in Kills(Run(events), Poll(false, 0, 0)) :: p in Spawned(events)
  }

  /** Whoever connects while a spawned process is awaited or held is a process that was spawned. */
  predicate KnownConnects(events: seq<Event>, k: nat)
    requires k < |events|
  {
    var s := Run(events[..k]);
    events[k].Connected? && events[k].pid > 0 && s.pidIsOurs && s.state != ABSENT ==>
      events[k].pid in Spawned(events[..k])
  }

  ghost predicate AlwaysKillsOwn(events: seq<Event>) {
    forall k | 0 <= k <= |events| :: KillsOwn(events[..k])
  }

  lemma OursIsHeld(s: Supervisor, e: Event)
    requires s.pidIsOurs ==> s.state != ABSENT
    ensures After(s, e).pidIsOurs ==> After(s, e).state != ABSENT
  {
  }

  lemma {:induction false} OursAreHeld(events: seq<Event>)
    ensures Run(events).pidIsOurs ==> Run(events).state != ABSENT
  {
    if events != [] {
      OursAreHeld(events[..|events| - 1]);
      OursIsHeld(Run(events[..|events| - 1]), events[|events| - 1]);
    }
  }

  lemma SpawnedStep(events: seq<Event>, k: nat)
    requires k < |events|
    ensures Spawned(events[..k + 1])
         == Spawned(events[..k]) + if SpawnsAt(events, k) then {events[k].spawned} else {}
  {
    assert events[..k + 1][..k] == events[..k];
  }

  /** The process held as its own changes by a spawn or by a connection. */
  lemma OursStep(s: Supervisor, e: Event, known: set<int>, after: set<int>)
    requires s.pidIsOurs ==> s.state != ABSENT
    requires after == known + if IsSpawn(s, e) then {e.spawned} else {}
    requires forall p | p in Kills(s, Poll(false, 0, 0)) :: p in known
    ensures (forall p | p in Kills(After(s, e), Poll(false, 0, 0)) :: p in after)
        <==> (e.Connected? && e.pid > 0 && s.pidIsOurs && s.state != ABSENT ==> e.pid in known)
  {
  }

  /** Nothing but spawned processes is ever up for killing exactly when every connection is as `KnownConnects` says. */
  lemma KillsOwnIff(events: seq<Event>)
    ensures AlwaysKillsOwn(events) <==> forall k | 0 <= k < |events| :: KnownConnects(events, k)
  {
    if AlwaysKillsOwn(events) {
      forall k | 0 <= k < |events| ensures KnownConnects(events, k) {
        assert KillsOwn(events[..k]) && KillsOwn(events[..k + 1]);
        OwnStep(events, k);
      }
    }
    if forall k | 0 <= k < |events| :: KnownConnects(events, k) {
      forall k | 0 <= k <= |events| ensures KillsOwn(events[..k]) {
        KnownKillsOwn(events, k);
      }
    }
  }

  lemma OwnStep(events: seq<Event>, k: nat)
    requires k < |events| && KillsOwn(events[..k])
    ensures KillsOwn(events[..k + 1]) <==> KnownConnects(events, k)
  {
    RunStep(events, k);
    SpawnedStep(events, k);
    OursAreHeld(events[..k]);
    OursStep(Run(events[..k]), events[k], Spawned(events[..k]), Spawned(events[..k + 1]));
    hide After;
    hide Run;
    hide Spawned;
    hide Kills;
    hide IsSpawn;
  }

  lemma {:induction false} KnownKillsOwn(events: seq<Event>, k: nat)
    requires k <= |events| && forall j | 0 <= j < |events| :: KnownConnects(events, j)
    ensures KillsOwn(events[..k])
  {
    hide KnownConnects;
    if k > 0 {
      KnownKillsOwn(events, k - 1);
      hide KillsOwn;
      OwnStep(events, k - 1);
    }
  }

  /** What any event of such a run kills was spawned. */
  lemma KilledWereSpawned(events: seq<Event>, k: nat)
    requires k < |events| && AlwaysKillsOwn(events)
    ensures forall p | p in Kills(Run(events[..k]), events[k]) :: p in Spawned(events[..k])
  {
    assert KillsOwn(events[..k]);
  }

  /** A stranger that connects while the spawned process is awaited is killed in its place. */
  lemma StrangerIsKilled(spawned: int, stranger: int)
    requires spawned > 0 && stranger > 0 && spawned != stranger
    ensures var run := [Poll(true, 0, spawned), Connected(stranger)];
            Spawned(run) == {spawned} && Kills(Run(run), Poll(false, 0, 0)) == [stranger]
  {
    var run := [Poll(true, 0, spawned), Connected(stranger)];
    RunStep(run, 0);
    RunStep(run, 1);
    SpawnedStep(run, 0);
    SpawnedStep(run, 1);
    assert run[..2] == run;
    assert Run(run[..0]) == INITIAL && Spawned(run[..0]) == {};
    hide Run;
    hide Spawned;
  }

  // ---------------------------------------------------------------- the sessions

  /** The event makes the supervisor forget a session. */
  predicate Drops(s: Supervisor, e: Event, key: SessionKey) {
    || e == SessionDelta(key, false) || e.Released? || e.Disconnected?
    || (e.Poll? && !e.shouldOwn && s.state != ABSENT)
    || (e.Poll? && e.shouldOwn && s.state == STARTING && e.now >= Armed(s, e.now).handshakeDeadline)
  }

  /** Event `k` reported the session and none since made the supervisor forget it. */
  ghost predicate HeldFrom(events: seq<Event>, key: SessionKey, k: nat) {
    && k < |events| && events[k] == SessionDelta(key, true)
    && forall j | k < j < |events| :: !DropsAt(events, j, key)
  }

  predicate DropsAt(events: seq<Event>, k: nat, key: SessionKey)
    requires k < |events|
  {
    Drops(Run(events[..k]), events[k], key)
  }

  lemma TrackedStep(s: Supervisor, e: Event, key: SessionKey)
    ensures key in After(s, e).trackedSessions
        <==> e == SessionDelta(key, true) || (key in s.trackedSessions && !Drops(s, e, key))
  {
  }

  lemma HeldStep(events: seq<Event>, key: SessionKey, k: nat)
    requires k + 1 < |events|
    ensures var before := events[..|events| - 1];
            HeldFrom(events, key, k) <==> HeldFrom(before, key, k) && !Drops(Run(before), events[|events| - 1], key)
  {
    hide Drops;
    hide Run;
    var last := |events| - 1;
    var before := events[..last];
    forall j: nat | j < last ensures DropsAt(before, j, key) == DropsAt(events, j, key) {
      assert before[..j] == events[..j];
    }
    assert DropsAt(events, last, key) == Drops(Run(before), events[last], key);
    hide DropsAt;
    assert before[k] == events[k];
    if HeldFrom(events, key, k) {
      forall j | k < j < last ensures !DropsAt(before, j, key) {
        assert !DropsAt(events, j, key);
      }
    }
  }

  /** A session is tracked exactly when it was reported and nothing has dropped it since. */
  lemma {:induction false} TrackedIff(events: seq<Event>, key: SessionKey)
    ensures key in Run(events).trackedSessions <==> exists k: nat :: HeldFrom(events, key, k)
  {
    if events != [] {
      var last := |events| - 1;
      var before := events[..last];
      TrackedIff(before, key);
      TrackedStep(Run(before), events[last], key);
      forall k: nat | k < last
        ensures HeldFrom(events, key, k) <==> HeldFrom(before, key, k) && !Drops(Run(before), events[last], key)
      {
        HeldStep(events, key, k);
      }
      hide Drops;
      hide After;
      if key in Run(events).trackedSessions {
        if events[last] == SessionDelta(key, true) {
          assert HeldFrom(events, key, last);
        } else {
          var k: nat :| HeldFrom(before, key, k);
          assert HeldFrom(events, key, k);
        }
        assert exists k: nat :: HeldFrom(events, key, k);
      }
      if k: nat :| HeldFrom(events, key, k) {
        if k < last {
          assert HeldFrom(before, key, k);
        } else {
          assert k == last;
        }
        assert key in After(Run(before), events[last]).trackedSessions;
        assert key in Run(events).trackedSessions;
      }
    }
  }

  // ---------------------------------------------------------------- the supervisor

  class OwnerSupervisor {
    var state: OwnerState
    var pid: int
    var pidIsOurs: bool
    var effectId: U32
    var hasControl: bool
    var restarts: nat
    var spawnFailures: nat
    var lastFailureReason: U32
    var spawnAttempts: nat
    var nextSpawnAttempt: nat
    var handshakeDeadline: nat
    var respawnBackoffPending: bool
    var handshakeArmPending: bool
    var trackedSessions: set<SessionKey>
    /** Processes killed, newest last. */
    var killed: seq<int>
    /** How often spawning was tried. */
    var tried: nat

    ghost function Fields(): Supervisor
      reads this
    {
      Supervisor(state, pid, pidIsOurs, effectId, hasControl, restarts, spawnFailures, lastFailureReason, spawnAttempts,
                 nextSpawnAttempt, handshakeDeadline, respawnBackoffPending, handshakeArmPending, trackedSessions)
    }

    constructor ()
      ensures Fields() == INITIAL && killed == [] && tried == 0
    {
      state, pid, pidIsOurs, effectId, hasControl := ABSENT, 0, false, 0, false;
      restarts, spawnFailures, lastFailureReason, spawnAttempts, nextSpawnAttempt := 0, 0, 0, 0, 0;
      handshakeDeadline, respawnBackoffPending, handshakeArmPending, trackedSessions := 0, false, false, {};
      killed, tried := [], 0;
    }

    method Poll(shouldOwn: bool, now: nat, spawned: int)
      modifies this
      ensures Fields() == After(old(Fields()), Event.Poll(shouldOwn, now, spawned))
      ensures tried == old(tried) + if IsSpawn(old(Fields()), Event.Poll(shouldOwn, now, spawned)) then 1 else 0
      ensures killed == old(killed) + Kills(old(Fields()), Event.Poll(shouldOwn, now, spawned))
    {
      if !shouldOwn {
        StopOwning();
        return;
      }
      ArmDeadlines(now);
      hide Armed;
      match state
      case OWNED => return;
      case FAILED => return;
      case STARTING =>
        if now >= handshakeDeadline {
          GiveUp(now);
        }
        return;
      case ABSENT =>
        if now < nextSpawnAttempt {
          return;
        }
        if spawnAttempts >= MAX_SPAWN_ATTEMPTS {
          state := FAILED;
          return;
        }
        Spawn(now, spawned);
    }

    method StopOwning()
      modifies this
      ensures Fields() == AfterPoll(old(Fields()), false, 0, 0) && tried == old(tried)
      ensures killed == old(killed) + Kills(old(Fields()), Event.Poll(false, 0, 0))
    {
      if state != ABSENT {
        DropOwner();
      }
      respawnBackoffPending := false;
    }

    method DropOwner()
      modifies this
      ensures Fields() == Forgotten(Unlinked(old(Fields()))).(state := ABSENT, spawnAttempts := 0, nextSpawnAttempt := 0,
                                                             handshakeDeadline := 0)
      ensures tried == old(tried) && killed == old(killed) + if old(pid > 0 && pidIsOurs) then [old(pid)] else []
    {
      KillIfSpawned();
      ResetOwnerObservations();
      state, spawnAttempts, nextSpawnAttempt, handshakeDeadline := ABSENT, 0, 0, 0;
    }

    /** Sets the deadlines callbacks asked for against the caller's clock. */
    method ArmDeadlines(now: nat)
      modifies `handshakeArmPending, `handshakeDeadline, `respawnBackoffPending, `nextSpawnAttempt
      ensures Fields() == Armed(old(Fields()), now)
    {
      if handshakeArmPending {
        handshakeArmPending := false;
        handshakeDeadline := now + HANDSHAKE_TIMEOUT;
      }
      if respawnBackoffPending {
        respawnBackoffPending := false;
        nextSpawnAttempt := now + SPAWN_RETRY_DELAY;
      }
    }

    /** The owner never answered. */
    method GiveUp(now: nat)
      modifies this
      ensures var s := old(Fields());
              Fields() == Forgotten(Unlinked(s)).(restarts := s.restarts + 1, state := ABSENT,
                                                  nextSpawnAttempt := now + SPAWN_RETRY_DELAY)
      ensures tried == old(tried) && killed == old(killed) + if old(pid > 0 && pidIsOurs) then [old(pid)] else []
    {
      KillIfSpawned();
      ResetOwnerObservations();
      restarts := restarts + 1;
      state := ABSENT;
      nextSpawnAttempt := now + SPAWN_RETRY_DELAY;
    }

    method Spawn(now: nat, spawned: int)
      modifies `state, `pid, `pidIsOurs, `spawnAttempts, `tried, `spawnFailures, `nextSpawnAttempt, `handshakeDeadline
      ensures Fields() == AfterSpawn(old(Fields()), now, spawned) && tried == old(tried) + 1 && killed == old(killed)
    {
      spawnAttempts := spawnAttempts + 1;
      tried := tried + 1;
      if spawned <= 0 {
        spawnFailures := spawnFailures + 1;
        nextSpawnAttempt := now + SPAWN_RETRY_DELAY;
        if spawnAttempts >= MAX_SPAWN_ATTEMPTS {
          state := FAILED;
        }
        return;
      }
      pid, pidIsOurs, state := spawned, true, STARTING;
      handshakeDeadline := now + HANDSHAKE_TIMEOUT;
    }

    method OnConnected(p: int)
      modifies this
      ensures Fields() == After(old(Fields()), Connected(p))
    {
      pid := p;
      if state == ABSENT {
        pidIsOurs := false;
      }
      if state != OWNED {
        state := STARTING;
        handshakeArmPending := true;
      }
    }

    method SeedSurvivingOwner(p: int, alive: bool) returns (adopted: bool)
      modifies this
      ensures Fields() == After(old(Fields()), Seed(p, alive))
      ensures adopted == (old(state) == ABSENT && p > 0 && alive)
    {
      if state != ABSENT || p <= 0 || !alive {
        return false;
      }
      pid, pidIsOurs, state, handshakeArmPending := p, false, STARTING, true;
      return true;
    }

    method OnOwned(effect: U32, control: bool)
      modifies this
      ensures Fields() == After(old(Fields()), Owned(effect, control))
    {
      effectId, hasControl, lastFailureReason, state := effect, control, 0, OWNED;
      spawnAttempts, handshakeDeadline := 0, 0;
    }

    method OnOwnerFailed(reason: U32)
      modifies this
      ensures Fields() == After(old(Fields()), OwnerFailed(reason))
    {
      lastFailureReason, effectId, hasControl, state, handshakeDeadline := reason, 0, false, FAILED, 0;
    }

    method OnReleased()
      modifies this
      ensures Fields() == After(old(Fields()), Released)
    {
      ResetOwnerObservations();
      if state == OWNED {
        state := STARTING;
      }
    }

    method OnSessionDelta(key: SessionKey, appeared: bool)
      modifies this
      ensures Fields() == After(old(Fields()), SessionDelta(key, appeared))
    {
      if appeared {
        trackedSessions := trackedSessions + {key};
      } else {
        trackedSessions := trackedSessions - {key};
      }
    }

    method OnDisconnected()
      modifies this
      ensures Fields() == After(old(Fields()), Disconnected)
    {
      ResetOwnerObservations();
      if state == OWNED || state == STARTING {
        restarts := restarts + 1;
      }
      pid, pidIsOurs, state, handshakeDeadline, respawnBackoffPending := 0, false, ABSENT, 0, true;
    }

    method ResetOwnerObservations()
      modifies `effectId, `hasControl, `trackedSessions
      ensures Fields() == Forgotten(old(Fields()))
    {
      effectId, hasControl, trackedSessions := 0, false, {};
    }

    method KillIfSpawned()
      modifies `pid, `pidIsOurs, `killed
      ensures Fields() == Unlinked(old(Fields()))
      ensures killed == old(killed) + if old(pid > 0 && pidIsOurs) then [old(pid)] else []
    {
      if pid > 0 && pidIsOurs {
        killed := killed + [pid];
      }
      pid, pidIsOurs := 0, false;
    }
  }
}
