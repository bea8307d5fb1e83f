/** The snapshot files of one route, through commits that fail or are cut short by a crash. */
module SnapshotStore {
  import opened Bytes
  import opened Wrappers
  import opened SnapshotSchema

  datatype Name = Current | Previous | Temporary | PreviousTemporary

  /** A file's bytes, and whether they are known to survive a crash. */
  datatype File = File(bytes: Data, durable: bool)

  /** A change of the directory; the file an entry points to is given by number. */
  datatype DirOp =
    | Create(name: Name, file: nat)
    | Remove(name: Name)
    | Move(source: Name, target: Name, file: nat)

  type Directory = map<Name, nat>

  function Applied(d: Directory, op: DirOp): Directory {
    match op
    case Create(name, file) => d[name := file]
    case Remove(name) => d - {name}
    case Move(source, target, file) => (d - {source})[target := file]
  }

  /** Changes made but not yet synced reach the disk or not, each by itself. */
  function Survivors(base: Directory, pending: seq<DirOp>, kept: nat -> bool): Directory {
    if pending == [] then base
    else
      var before := Survivors(base, pending[..|pending| - 1], kept);
      if kept(|pending| - 1) then Applied(before, pending[|pending| - 1]) else before
  }

  /** The directory as it is seen, with every change in place. */
  function Seen(base: Directory, pending: seq<DirOp>): Directory {
    Survivors(base, pending, All)
  }

  predicate All(change: nat) {
    true
  }

  /** Where a commit stands: which step it takes next. Files are named by number. */
  datatype Phase =
    | Idle
    | EnsuringRoute
    | RemovingTemporary
    | RemovingPreviousTemporary
    | CreatingTemporary
    | WritingTemporary(temporary: nat)
    | SyncingTemporary(temporary: nat)
    | CheckingCurrent(temporary: nat)
    | CreatingCopy(temporary: nat)
    | WritingCopy(temporary: nat, copy: nat)
    | SyncingCopy(temporary: nat, copy: nat)
    | Rotating(temporary: nat, copy: nat)
    | Publishing(temporary: nat)
    | SyncingDirectory

  /** The route's own directory: not there, made but not known to survive a crash, or safe. Nothing in a commit syncs the
      directory it is made in. */
  datatype Route = Missing | Unsynced | Durable

  /** The disk, the commit under way, every snapshot a commit was attempted for, the last of them that succeeded, and
      whether a crash has taken the route's directory away since. */
  datatype Store = Store(
    route: Route,
    files: seq<File>,
    base: Directory,
    pending: seq<DirOp>,
    phase: Phase,
    attempted: seq<Snapshot>,
    succeeded: Option<nat>,
    lost: bool)

  /** `SkipRotation` is a commit that cannot read the current file and goes on without a copy; `Settle` is the system
      writing the route's directory out on its own. */
  datatype Event =
    | Begin(snapshot: Snapshot)
    | Advance
    | SkipRotation
    | Fail(cleanTemporary: bool, cleanCopy: bool)
    | Settle
    | Crash(kept: nat -> bool, garbage: nat -> Data, dropRoute: bool)

  function View(s: Store): Directory {
    Seen(s.base, s.pending)
  }

  function Contents(s: Store, name: Name): Option<Data> {
    if name in View(s) && View(s)[name] < |s.files| then Some(s.files[View(s)[name]].bytes) else None
  }

  /** What loading the named snapshot gives. */
  function LoadNamed(s: Store, name: Name, hash: Data -> Data): Option<Snapshot> {
    match Contents(s, name)
    case None => None
    case Some(bytes) =>
      match DecodedSnapshot(bytes, hash)
      case Ok(snapshot) => Some(snapshot)
      case Err(_) => None
  }

  function Changed(s: Store, op: DirOp): Store {
    s.(pending := s.pending + [op])
  }

  function RemovedIfThere(s: Store, name: Name): Store {
    if name in View(s) then Changed(s, Remove(name)) else s
  }

  function Created(s: Store, name: Name): Store {
    Changed(s, Create(name, |s.files|)).(files := s.files + [File([], false)])
  }

  function Written(s: Store, file: nat, bytes: Data, durable: bool): Store {
    if file < |s.files| then s.(files := s.files[file := File(bytes, durable)]) else s
  }

  /** The wire form the commit under way is to store. */
  function Payload(s: Store): Data {
    if s.attempted == [] || !Encodable(s.attempted[|s.attempted| - 1]) then []
    else CanonicalWire(s.attempted[|s.attempted| - 1])
  }

  function CopyOf(s: Store): Data {
    match Contents(s, Current)
    case Some(bytes) => bytes
    case None => []
  }

  /** The next step of a commit. */
  function Advanced(s: Store, hash: Data -> Data): Store {
    match s.phase
    case Idle => s
    case EnsuringRoute =>
      s.(route := if s.route.Missing? then Unsynced else s.route, phase := RemovingTemporary)
    case RemovingTemporary => RemovedIfThere(s, Temporary).(phase := RemovingPreviousTemporary)
    case RemovingPreviousTemporary => RemovedIfThere(s, PreviousTemporary).(phase := CreatingTemporary)
    case CreatingTemporary => Created(s, Temporary).(phase := WritingTemporary(|s.files|))
    case WritingTemporary(t) => Written(s, t, Payload(s), false).(phase := SyncingTemporary(t))
    case SyncingTemporary(t) => Written(s, t, Payload(s), true).(phase := CheckingCurrent(t))
    case CheckingCurrent(t) =>
      s.(phase := if LoadNamed(s, Current, hash).Some? then CreatingCopy(t) else Publishing(t))
    case CreatingCopy(t) => Created(s, PreviousTemporary).(phase := WritingCopy(t, |s.files|))
    case WritingCopy(t, c) => Written(s, c, CopyOf(s), false).(phase := SyncingCopy(t, c))
    case SyncingCopy(t, c) => Written(s, c, CopyOf(s), true).(phase := Rotating(t, c))
    case Rotating(t, c) => Changed(s, Move(PreviousTemporary, Previous, c)).(phase := Publishing(t))
    case Publishing(t) => Changed(s, Move(Temporary, Current, t)).(phase := SyncingDirectory)
    case SyncingDirectory =>
      s.(base := View(s), pending := [], phase := Idle, lost := false,
         succeeded := if s.attempted == [] then None else Some(|s.attempted| - 1))
  }

  /** A step fails: the commit gives up and may or may not get its temporary files removed. */
  function Failed(s: Store, cleanTemporary: bool, cleanCopy: bool): Store {
    var t := if cleanTemporary then RemovedIfThere(s, Temporary) else s;
    var u := if cleanCopy then RemovedIfThere(t, PreviousTemporary) else t;
    u.(phase := Idle)
  }

  /** The files after a crash: those not synced hold anything. */
  function Surviving(files: seq<File>, garbage: nat -> Data): (after: seq<File>)
    ensures |after| == |files| && forall i | 0 <= i < |files| && files[i].durable :: after[i] == files[i]
  {
    seq(|files|, i requires 0 <= i < |files| => if files[i].durable then files[i] else File(garbage(i), true))
  }

  /** A crash: each unsynced change survives or not, and so does a route directory that was never synced. */
  function Crashed(s: Store, kept: nat -> bool, garbage: nat -> Data, dropRoute: bool): Store {
    var t := s.(files := Surviving(s.files, garbage), pending := [], phase := Idle);
    if dropRoute && s.route != Durable then t.(route := Missing, base := map[], lost := true)
    else t.(route := if s.route.Missing? then Missing else Durable, base := Survivors(s.base, s.pending, kept))
  }

  function Next(s: Store, e: Event, hash: Data -> Data): Store {
    match e
    case Begin(snapshot) =>
      if s.phase == Idle && Validation(snapshot, hash) == Pass
        then s.(phase := EnsuringRoute, attempted := s.attempted + [snapshot])
      else s
    case Advance => Advanced(s, hash)
    case SkipRotation => if s.phase.CheckingCurrent? then s.(phase := Publishing(s.phase.temporary)) else s
    case Fail(cleanTemporary, cleanCopy) => if s.phase == Idle then s else Failed(s, cleanTemporary, cleanCopy)
    case Settle => s.(route := if s.route.Missing? then Missing else Durable)
    case Crash(kept, garbage, dropRoute) => Crashed(s, kept, garbage, dropRoute)
  }

  // ---------------------------------------------------------------- what files may be put in place

  /** File `file` durably holds the snapshot of attempt `k`, which is the last that succeeded or a later one. */
  ghost predicate Holds(s: Store, file: nat, k: nat) {
    && file < |s.files| && s.files[file].durable
    && k < |s.attempted| && (s.succeeded.Some? ==> s.succeeded.value <= k)
    && Encodable(s.attempted[k]) && s.files[file].bytes == CanonicalWire(s.attempted[k])
  }

  ghost predicate HoldsSome(s: Store, file: nat) {
    exists k: nat :: Holds(s, file, k)
  }

  /** File `file` durably holds a snapshot. */
  ghost predicate Decodes(s: Store, file: nat, hash: Data -> Data) {
    file < |s.files| && s.files[file].durable && DecodedSnapshot(s.files[file].bytes, hash).Ok?
  }

  /** A change that touches the current or the previous file only puts a good one in its place. */
  ghost predicate OpOk(s: Store, op: DirOp, hash: Data -> Data) {
    match op
    case Create(name, _) => name != Current && name != Previous
    case Remove(name) => name != Current && name != Previous
    case Move(source, target, file) =>
      && source != Current && source != Previous
      && (target == Current ==> HoldsSome(s, file))
      && (target == Previous ==> Decodes(s, file, hash))
  }

  ghost predicate OpsOk(s: Store, hash: Data -> Data) {
    forall i | 0 <= i < |s.pending| :: OpOk(s, s.pending[i], hash)
  }

  ghost predicate CurrentHolds(s: Store, d: Directory) {
    Current in d && HoldsSome(s, d[Current])
  }

  ghost predicate PreviousDecodes(s: Store, d: Directory, hash: Data -> Data) {
    Previous in d && Decodes(s, d[Previous], hash)
  }

  /** The commit's own file is written and synced. */
  ghost predicate Stored(s: Store, file: nat) {
    file < |s.files| && s.attempted != [] && s.files[file] == File(Payload(s), true)
  }

  /** The copy is a file of its own, not yet relied on. */
  ghost predicate Copying(s: Store, file: nat, hash: Data -> Data) {
    && file < |s.files| && !s.files[file].durable && LoadNamed(s, Current, hash).Some?
    && View(s)[Current] != file
  }

  ghost predicate PhaseOk(s: Store, hash: Data -> Data) {
    match s.phase
    case Idle => true
    case EnsuringRoute => s.attempted != []
    case RemovingTemporary => s.attempted != []
    case RemovingPreviousTemporary => s.attempted != []
    case CreatingTemporary => s.attempted != []
    case WritingTemporary(t) => s.attempted != [] && t < |s.files| && !s.files[t].durable
    case SyncingTemporary(t) => s.attempted != [] && t < |s.files| && !s.files[t].durable
    case CheckingCurrent(t) => Stored(s, t)
    case CreatingCopy(t) => Stored(s, t) && LoadNamed(s, Current, hash).Some?
    case WritingCopy(t, c) => Stored(s, t) && Copying(s, c, hash)
    case SyncingCopy(t, c) => Stored(s, t) && Copying(s, c, hash)
    case Rotating(t, c) => Stored(s, t) && Decodes(s, c, hash)
    case Publishing(t) => Stored(s, t)
    case SyncingDirectory => Current in View(s) && Stored(s, View(s)[Current])
  }

  ghost predicate AllValid(attempted: seq<Snapshot>, hash: Data -> Data) {
    forall k | 0 <= k < |attempted| :: IsValid(attempted[k], hash)
  }

  ghost predicate Inv(s: Store, hash: Data -> Data) {
    && AllValid(s.attempted, hash)
    && (s.succeeded.Some? ==> s.succeeded.value < |s.attempted| && (s.lost || CurrentHolds(s, s.base)))
    && OpsOk(s, hash)
    && PhaseOk(s, hash)
  }

  // ---------------------------------------------------------------- what changes leave alone

  /** Durable files and past attempts stay. */
  ghost predicate Extends(s: Store, t: Store) {
    && |s.files| <= |t.files|
    && (forall i | 0 <= i < |s.files| :: s.files[i].durable ==> t.files[i] == s.files[i])
    && s.attempted <= t.attempted && t.succeeded == s.succeeded && t.lost == s.lost
  }

  lemma ExtendsKeeps(s: Store, t: Store, file: nat, hash: Data -> Data)
    requires Extends(s, t)
    ensures HoldsSome(s, file) ==> HoldsSome(t, file)
    ensures Decodes(s, file, hash) ==> Decodes(t, file, hash)
  {
    hide CanonicalWire;
    hide DecodedSnapshot;
    if k: nat :| Holds(s, file, k) {
      assert s.attempted[k] == t.attempted[k];
      assert Holds(t, file, k);
    }
  }

  lemma ExtendsKeepsOps(s: Store, t: Store, op: DirOp, hash: Data -> Data)
    requires Extends(s, t) && OpOk(s, op, hash)
    ensures OpOk(t, op, hash)
  {
    hide HoldsSome;
    hide Decodes;
    hide Extends;
    if op.Move? {
      ExtendsKeeps(s, t, op.file, hash);
    }
  }

  /** Whichever changes survive, the current and the previous file are as good as they were on disk. */
  lemma {:induction false} SurvivorsAreGood(
      s: Store, base: Directory, pending: seq<DirOp>, kept: nat -> bool, hash: Data -> Data)
    requires forall i | 0 <= i < |pending| :: OpOk(s, pending[i], hash)
    ensures CurrentHolds(s, base) ==> CurrentHolds(s, Survivors(base, pending, kept))
    ensures PreviousDecodes(s, base, hash) ==> PreviousDecodes(s, Survivors(base, pending, kept), hash)
    decreases |pending|
  {
    hide HoldsSome;
    hide Decodes;
    if pending != [] {
      var n := |pending| - 1;
      SurvivorsAreGood(s, base, pending[..n], kept, hash);
      assert OpOk(s, pending[n], hash);
    }
  }

  lemma ViewChanged(s: Store, op: DirOp)
    ensures View(Changed(s, op)) == Applied(View(s), op)
  {
    assert (s.pending + [op])[..|s.pending|] == s.pending;
  }

  /** The step adds at most one change, a good one, and leaves alone what must stay. */
  ghost predicate Grows(s: Store, t: Store, hash: Data -> Data) {
    && Extends(s, t) && t.base == s.base
    && s.pending <= t.pending
    && forall i | |s.pending| <= i < |t.pending| :: OpOk(t, t.pending[i], hash)
  }

  lemma GrowingKeepsInv(s: Store, t: Store, hash: Data -> Data)
    requires Inv(s, hash) && Grows(s, t, hash) && PhaseOk(t, hash) && AllValid(t.attempted, hash)
    ensures Inv(t, hash)
    ensures PreviousDecodes(s, s.base, hash) ==> PreviousDecodes(t, t.base, hash)
  {
    hide OpOk;
    hide PhaseOk;
    hide HoldsSome;
    hide Decodes;
    hide IsValid;
    forall i | 0 <= i < |t.pending|
      ensures OpOk(t, t.pending[i], hash)
    {
      if i < |s.pending| {
        assert OpOk(s, s.pending[i], hash);
        ExtendsKeepsOps(s, t, s.pending[i], hash);
      }
    }
    if Current in s.base {
      ExtendsKeeps(s, t, s.base[Current], hash);
    }
    if Previous in s.base {
      ExtendsKeeps(s, t, s.base[Previous], hash);
    }
  }

  lemma StoredHolds(s: Store, file: nat, hash: Data -> Data)
    requires Stored(s, file) && AllValid(s.attempted, hash)
    requires s.succeeded.Some? ==> s.succeeded.value < |s.attempted|
    ensures HoldsSome(s, file)
  {
    var k := |s.attempted| - 1;
    assert IsValid(s.attempted[k], hash);
    ValidFits(s.attempted[k], hash);
    hide CanonicalWire;
    hide IsValid;
    assert Holds(s, file, k);
  }

  lemma FailedKeepsInv(s: Store, cleanTemporary: bool, cleanCopy: bool, hash: Data -> Data)
    requires Inv(s, hash)
    ensures Grows(s, Failed(s, cleanTemporary, cleanCopy), hash)
    ensures Inv(Failed(s, cleanTemporary, cleanCopy), hash)
    ensures PreviousDecodes(s, s.base, hash) ==> PreviousDecodes(Failed(s, cleanTemporary, cleanCopy), s.base, hash)
  {
    hide View;
    hide IsValid;
    GrowingKeepsInv(s, Failed(s, cleanTemporary, cleanCopy), hash);
  }

  /** What a crash leaves of a route that is not lost with it. */
  lemma CrashedKeepsInv(s: Store, kept: nat -> bool, garbage: nat -> Data, dropRoute: bool, hash: Data -> Data)
    requires Inv(s, hash)
    ensures Inv(Crashed(s, kept, garbage, dropRoute), hash)
    ensures s.route == Durable && PreviousDecodes(s, s.base, hash)
        ==> PreviousDecodes(Crashed(s, kept, garbage, dropRoute), Crashed(s, kept, garbage, dropRoute).base, hash)
  {
    hide OpOk;
    hide IsValid;
    hide Decodes;
    hide HoldsSome;
    hide Surviving;
    var t := Crashed(s, kept, garbage, dropRoute);
    SurvivorsAreGood(s, s.base, s.pending, kept, hash);
    assert Extends(s, t.(lost := s.lost));
    if Current in t.base {
      ExtendsKeeps(s, t.(lost := s.lost), t.base[Current], hash);
      LostDoesNotMatter(t, s.lost, t.base[Current], hash);
    }
    if Previous in t.base {
      ExtendsKeeps(s, t.(lost := s.lost), t.base[Previous], hash);
      LostDoesNotMatter(t, s.lost, t.base[Previous], hash);
    }
  }

  lemma LostDoesNotMatter(t: Store, lost: bool, file: nat, hash: Data -> Data)
    ensures HoldsSome(t.(lost := lost), file) ==> HoldsSome(t, file)
    ensures Decodes(t.(lost := lost), file, hash) ==> Decodes(t, file, hash)
  {
    hide CanonicalWire;
    hide DecodedSnapshot;
    if k: nat :| Holds(t.(lost := lost), file, k) {
      assert Holds(t, file, k);
    }
  }

  /** The directory reaches the disk: everything seen is there for good. */
  lemma SyncedKeepsInv(s: Store, hash: Data -> Data)
    requires Inv(s, hash) && s.phase.SyncingDirectory?
    ensures Inv(Advanced(s, hash), hash)
    ensures PreviousDecodes(s, s.base, hash)
        ==> PreviousDecodes(Advanced(s, hash), Advanced(s, hash).base, hash)
  {
    hide OpOk;
    hide IsValid;
    hide CanonicalWire;
    hide DecodedSnapshot;
    SurvivorsAreGood(s, s.base, s.pending, All, hash);
    StoredHolds(Advanced(s, hash), View(s)[Current], hash);
  }

  lemma WritesKeepInv(s: Store, hash: Data -> Data)
    requires Inv(s, hash)
    requires s.phase.EnsuringRoute? || s.phase.RemovingTemporary? || s.phase.RemovingPreviousTemporary? || s.phase.CreatingTemporary?
             || s.phase.WritingTemporary? || s.phase.SyncingTemporary?
    ensures Grows(s, Advanced(s, hash), hash) && PhaseOk(Advanced(s, hash), hash)
  {
    hide View;
    hide IsValid;
    hide OpsOk;
    hide CurrentHolds;
    hide CanonicalWire;
    hide DecodedSnapshot;
  }

  lemma CreatingCopyKeepsInv(s: Store, hash: Data -> Data)
    requires Inv(s, hash) && (s.phase.CheckingCurrent? || s.phase.CreatingCopy?)
    ensures Grows(s, Advanced(s, hash), hash) && PhaseOk(Advanced(s, hash), hash)
  {
    hide IsValid;
    hide OpsOk;
    hide CurrentHolds;
    hide CanonicalWire;
    hide DecodedSnapshot;
    if s.phase.CreatingCopy? {
      ViewChanged(s, Create(PreviousTemporary, |s.files|));
    }
    hide Seen;
  }

  lemma CopyKeepsInv(s: Store, hash: Data -> Data)
    requires Inv(s, hash) && (s.phase.WritingCopy? || s.phase.SyncingCopy?)
    ensures Grows(s, Advanced(s, hash), hash) && PhaseOk(Advanced(s, hash), hash)
  {
    hide IsValid;
    hide OpsOk;
    hide CurrentHolds;
    hide CanonicalWire;
    hide DecodedSnapshot;
    hide Seen;
  }

  lemma RenamesKeepInv(s: Store, hash: Data -> Data)
    requires Inv(s, hash)
    requires s.phase.Rotating? || s.phase.Publishing?
    ensures Grows(s, Advanced(s, hash), hash) && PhaseOk(Advanced(s, hash), hash)
  {
    hide IsValid;
    hide OpsOk;
    hide CurrentHolds;
    hide CanonicalWire;
    hide DecodedSnapshot;
    var t := Advanced(s, hash);
    if s.phase.Publishing? {
      ViewChanged(s, Move(Temporary, Current, s.phase.temporary));
      StoredHolds(t, s.phase.temporary, hash);
    }
    hide Seen;
    hide HoldsSome;
  }

  lemma StepKeepsInv(s: Store, e: Event, hash: Data -> Data)
    requires Inv(s, hash)
    ensures Inv(Next(s, e, hash), hash)
    ensures (e.Crash? ==> s.route == Durable) && PreviousDecodes(s, s.base, hash)
        ==> PreviousDecodes(Next(s, e, hash), Next(s, e, hash).base, hash)
  {
    match e
    case Begin(snapshot) =>
      ValidationIsValid(snapshot, hash);
      hide IsValid;
      hide Validation;
      hide OpOk;
      var t := Next(s, e, hash);
      assert s.pending == t.pending;
      GrowingKeepsInv(s, t, hash);
    case SkipRotation => SmallStepKeepsInv(s, e, hash);
    case Settle => SmallStepKeepsInv(s, e, hash);
    case Crash(kept, garbage, dropRoute) => CrashedKeepsInv(s, kept, garbage, dropRoute, hash);
    case Fail(cleanTemporary, cleanCopy) => FailedKeepsInv(s, cleanTemporary, cleanCopy, hash);
    case Advance => AdvancedKeepsInv(s, hash);
  }

  lemma SmallStepKeepsInv(s: Store, e: Event, hash: Data -> Data)
    requires Inv(s, hash) && (e.SkipRotation? || e.Settle?)
    ensures Inv(Next(s, e, hash), hash)
    ensures PreviousDecodes(s, s.base, hash) ==> PreviousDecodes(Next(s, e, hash), Next(s, e, hash).base, hash)
  {
    hide IsValid;
    hide OpOk;
    hide CanonicalWire;
    hide DecodedSnapshot;
    var t := Next(s, e, hash);
    hide Seen;
    GrowingKeepsInv(s, t, hash);
  }

  lemma AdvancedKeepsInv(s: Store, hash: Data -> Data)
    requires Inv(s, hash)
    ensures Inv(Advanced(s, hash), hash)
    ensures PreviousDecodes(s, s.base, hash) ==> PreviousDecodes(Advanced(s, hash), Advanced(s, hash).base, hash)
  {
    hide *;
    if s.phase.SyncingDirectory? {
      SyncedKeepsInv(s, hash);
    } else if s.phase.Idle? {
      IdleStays(s, hash);
    } else {
      if s.phase.CheckingCurrent? || s.phase.CreatingCopy? {
        CreatingCopyKeepsInv(s, hash);
      } else if s.phase.WritingCopy? || s.phase.SyncingCopy? {
        CopyKeepsInv(s, hash);
      } else if s.phase.Rotating? || s.phase.Publishing? {
        RenamesKeepInv(s, hash);
      } else {
        WritesKeepInv(s, hash);
      }
      SameAttempts(s, hash);
      GrowingKeepsInv(s, Advanced(s, hash), hash);
    }
  }

  lemma IdleStays(s: Store, hash: Data -> Data)
    requires s.phase.Idle?
    ensures Advanced(s, hash) == s
  {
  }

  lemma SameAttempts(s: Store, hash: Data -> Data)
    requires Inv(s, hash)
    ensures AllValid(Advanced(s, hash).attempted, hash)
  {
    hide IsValid;
  }

  // ---------------------------------------------------------------- whole runs

  /** Any disk to start from, with or without the route's directory. */
  predicate Starts(s: Store) {
    && s.phase == Idle && s.pending == [] && s.attempted == [] && s.succeeded == None
    && (s.route.Missing? ==> s.base == map[])
  }

  function Run(start: Store, events: seq<Event>, hash: Data -> Data): Store {
    if events == [] then start
    else Next(Run(start, events[..|events| - 1], hash), events[|events| - 1], hash)
  }

  lemma RunStep(start: Store, events: seq<Event>, hash: Data -> Data)
    requires events != []
    ensures Run(start, events, hash)
         == Next(Run(start, events[..|events| - 1], hash), events[|events| - 1], hash)
  {
  }

  lemma StartKeepsInv(start: Store, hash: Data -> Data)
    requires Starts(start)
    ensures Inv(start, hash)
  {
  }

  lemma {:induction false} RunKeepsInv(start: Store, events: seq<Event>, hash: Data -> Data)
    requires Inv(start, hash)
    ensures Inv(Run(start, events, hash), hash)
  {
    hide *;
    if events == [] {
      RunNothing(start, hash);
    } else {
      RunStep(start, events, hash);
      RunKeepsInv(start, events[..|events| - 1], hash);
      StepKeepsInv(Run(start, events[..|events| - 1], hash), events[|events| - 1], hash);
    }
  }

  lemma RunNothing(start: Store, hash: Data -> Data)
    ensures Run(start, [], hash) == start
  {
  }

  lemma RemovedKeeps(s: Store, name: Name)
    ensures RemovedIfThere(s, name) == s.(pending := RemovedIfThere(s, name).pending)
  {
    hide View;
  }

  /** A durable route stays so, and nothing is lost with it; successes only move on. */
  lemma StepKeepsRoute(s: Store, e: Event, hash: Data -> Data)
    ensures s.route == Durable ==> Next(s, e, hash).route == Durable
    ensures s.route == Durable && !s.lost ==> !Next(s, e, hash).lost
    ensures s.attempted <= Next(s, e, hash).attempted
    ensures s.succeeded.Some? && s.succeeded.value < |s.attempted| ==>
              Next(s, e, hash).succeeded.Some? && s.succeeded.value <= Next(s, e, hash).succeeded.value
  {
    hide View;
    hide LoadNamed;
    hide CopyOf;
    hide Payload;
    hide Validation;
    hide RemovedIfThere;
    RemovedKeeps(s, Temporary);
    RemovedKeeps(s, PreviousTemporary);
    RemovedKeeps(RemovedIfThere(s, Temporary), PreviousTemporary);
  }

  lemma {:induction false} RunKeepsRoute(start: Store, events: seq<Event>, hash: Data -> Data)
    requires Inv(start, hash) && start.route == Durable && !start.lost && start.succeeded.Some?
    ensures var s := Run(start, events, hash);
            s.route == Durable && !s.lost && s.succeeded.Some? && start.succeeded.value <= s.succeeded.value
  {
    hide *;
    if events == [] {
      RunNothing(start, hash);
    } else {
      var n := |events| - 1;
      RunStep(start, events, hash);
      RunKeepsRoute(start, events[..n], hash);
      RunKeepsInv(start, events[..n], hash);
      SucceededInRange(Run(start, events[..n], hash), hash);
      StepKeepsRoute(Run(start, events[..n], hash), events[n], hash);
    }
  }

  lemma SucceededInRange(s: Store, hash: Data -> Data)
    requires Inv(s, hash) && s.succeeded.Some?
    ensures s.succeeded.value < |s.attempted|
  {
  }

  /** Loading gives attempt number `since` or a later one. */
  ghost predicate LoadsSince(s: Store, since: nat, hash: Data -> Data) {
    exists k: nat :: LoadsThe(s, since, k, hash)
  }

  predicate LoadsThe(s: Store, since: nat, k: nat, hash: Data -> Data) {
    since <= k < |s.attempted| && LoadNamed(s, Current, hash) == Some(s.attempted[k])
  }

  lemma LoadsAttempt(s: Store, since: nat, hash: Data -> Data)
    requires Inv(s, hash) && s.succeeded.Some? && !s.lost && since <= s.succeeded.value
    ensures LoadsSince(s, since, hash)
  {
    hide OpOk;
    hide CanonicalWire;
    hide IsValid;
    hide DecodedSnapshot;
    SurvivorsAreGood(s, s.base, s.pending, All, hash);
    var file := View(s)[Current];
    var k: nat :| Holds(s, file, k);
    assert IsValid(s.attempted[k], hash);
    DecodeEncode(s.attempted[k], hash);
    assert LoadsThe(s, since, k, hash);
  }

  /** A crash that takes the route's directory leaves nothing to load. */
  function Losing(): Event {
    Crash(All, _ => [], true)
  }

  lemma LosesAll(s: Store, hash: Data -> Data)
    requires s.route != Durable
    ensures LoadNamed(Run(s, [Losing()], hash), Current, hash) == None
    ensures LoadNamed(Run(s, [Losing()], hash), Previous, hash) == None
  {
    RunNext(s, [Losing()], 0, hash);
    hide Run;
    hide DecodedSnapshot;
    assert View(Next(s, Losing(), hash)) == map[];
  }

  lemma NothingLoads(s: Store, since: nat, hash: Data -> Data)
    requires LoadNamed(s, Current, hash) == None
    ensures !LoadsSince(s, since, hash)
  {
    hide LoadNamed;
  }

  lemma RunNext(s: Store, events: seq<Event>, k: nat, hash: Data -> Data)
    requires k < |events|
    ensures Run(s, events[..0], hash) == s
    ensures Run(s, events[..k + 1], hash) == Next(Run(s, events[..k], hash), events[k], hash)
    ensures k + 1 == |events| ==> Run(s, events, hash) == Run(s, events[..k + 1], hash)
  {
    assert events[..k + 1][..k] == events[..k];
    assert k + 1 == |events| ==> events[..k + 1] == events;
  }

  // ---------------------------------------------------------------- when a commit lasts

  /** A step of a commit that nothing interrupts; reading the current file may fail. */
  predicate IsCommitStep(e: Event) {
    e.Advance? || e.SkipRotation?
  }

  /** One commit from its begin to its success. */
  ghost predicate IsCommit(s: Store, commit: seq<Event>, hash: Data -> Data) {
    && commit != [] && commit[0].Begin? && (forall i | 0 < i < |commit| :: IsCommitStep(commit[i]))
    && s.phase == Idle && Run(s, commit, hash).succeeded == Some(|s.attempted|)
  }

  lemma CommitStepKeeps(s: Store, e: Event, hash: Data -> Data)
    requires IsCommitStep(e) || e.Begin?
    ensures var t := Next(s, e, hash);
            && (t.route == Durable <==> s.route == Durable)
            && (t.succeeded == s.succeeded || !t.lost)
            && (t.lost ==> s.lost)
  {
    hide View;
    hide LoadNamed;
    hide CopyOf;
    hide Payload;
    hide Validation;
    hide RemovedIfThere;
    RemovedKeeps(s, Temporary);
    RemovedKeeps(s, PreviousTemporary);
    RemovedKeeps(RemovedIfThere(s, Temporary), PreviousTemporary);
  }

  lemma {:induction false} CommitKeeps(s: Store, commit: seq<Event>, hash: Data -> Data)
    requires forall i | 0 <= i < |commit| :: IsCommitStep(commit[i]) || commit[i].Begin?
    ensures var t := Run(s, commit, hash);
            (t.route == Durable <==> s.route == Durable) && (t.succeeded == s.succeeded || !t.lost)
  {
    hide *;
    if commit == [] {
      RunNothing(s, hash);
    } else {
      var n := |commit| - 1;
      RunStep(s, commit, hash);
      CommitKeeps(s, commit[..n], hash);
      CommitStepKeeps(Run(s, commit[..n], hash), commit[n], hash);
    }
  }

  /** A successful commit lasts, whatever fails or crashes later, if and only if the route's directory was durable before
      the commit: the commit itself syncs only what is in that directory. */
  lemma CurrentSurvives(start: Store, earlier: seq<Event>, commit: seq<Event>, hash: Data -> Data)
    requires Starts(start) && IsCommit(Run(start, earlier, hash), commit, hash)
    ensures var s := Run(start, earlier, hash);
            var t := Run(s, commit, hash);
            (forall later: seq<Event> :: LoadsSince(Run(t, later, hash), |s.attempted|, hash)) <==> s.route == Durable
  {
    var s := Run(start, earlier, hash);
    var t := Run(s, commit, hash);
    StartKeepsInv(start, hash);
    RunKeepsInv(start, earlier, hash);
    RunKeepsInv(s, commit, hash);
    SuccessIsNew(s, commit, hash);
    hide *;
    if s.route == Durable {
      forall later: seq<Event>
        ensures LoadsSince(Run(t, later, hash), |s.attempted|, hash)
      {
        RunKeepsInv(t, later, hash);
        RunKeepsRoute(t, later, hash);
        LoadsAttempt(Run(t, later, hash), |s.attempted|, hash);
      }
    } else {
      LosesAll(t, hash);
      NothingLoads(Run(t, [Losing()], hash), |s.attempted|, hash);
    }
  }

  lemma SuccessIsNew(s: Store, commit: seq<Event>, hash: Data -> Data)
    requires Inv(s, hash) && IsCommit(s, commit, hash)
    ensures var t := Run(s, commit, hash);
            !t.lost && t.succeeded == Some(|s.attempted|) && (t.route == Durable <==> s.route == Durable)
  {
    hide Run;
    hide IsValid;
    hide OpOk;
    CommitKeeps(s, commit, hash);
  }

  /** A disk on which the daemon has never stored this route. */
  const NEW_DISK := Store(Missing, [], map[], [], Idle, [], None, false)

  function FirstCommit(snapshot: Snapshot): seq<Event> {
    [Begin(snapshot), Advance, Advance, Advance, Advance, Advance, Advance, Advance, Advance, Advance]
  }

  /** The first commit of a route succeeds and can still be lost. */
  lemma FirstCommitCanBeLost(snapshot: Snapshot, hash: Data -> Data)
    requires IsValid(snapshot, hash)
    ensures Starts(NEW_DISK) && IsCommit(NEW_DISK, FirstCommit(snapshot), hash)
    ensures LoadNamed(Run(NEW_DISK, FirstCommit(snapshot), hash), Current, hash) == Some(snapshot)
    ensures LoadNamed(Run(Run(NEW_DISK, FirstCommit(snapshot), hash), [Losing()], hash), Current, hash) == None
  {
    FirstCommitSucceeds(snapshot, hash);
    var t := Run(NEW_DISK, FirstCommit(snapshot), hash);
    StartKeepsInv(NEW_DISK, hash);
    RunKeepsInv(NEW_DISK, FirstCommit(snapshot), hash);
    hide *;
    LoadsAttempt(t, 0, hash);
    LoadsTheOnly(t, snapshot, hash);
    LosesAll(t, hash);
    StartsNew(snapshot, hash);
  }

  lemma StartsNew(snapshot: Snapshot, hash: Data -> Data)
    requires Run(NEW_DISK, FirstCommit(snapshot), hash).succeeded == Some(0)
    ensures Starts(NEW_DISK) && IsCommit(NEW_DISK, FirstCommit(snapshot), hash)
  {
    hide Run;
  }

  lemma LoadsTheOnly(s: Store, snapshot: Snapshot, hash: Data -> Data)
    requires LoadsSince(s, 0, hash) && s.attempted == [snapshot]
    ensures LoadNamed(s, Current, hash) == Some(snapshot)
  {
    hide LoadNamed;
  }

  /** The first commit before its event `k`: nothing but its own temporary file is in the directory. */
  ghost predicate Underway(s: Store, snapshot: Snapshot, k: nat) {
    && s.route == Unsynced && s.base == map[] && s.pending == PendingAt(k) && s.phase == PhaseAt(k)
    && s.attempted == [snapshot] && s.succeeded == None && !s.lost && |s.files| == |s.pending|
  }

  function PhaseAt(k: nat): Phase {
    if k <= 2 then RemovingTemporary
    else if k == 3 then RemovingPreviousTemporary
    else if k == 4 then CreatingTemporary
    else if k == 5 then WritingTemporary(0)
    else if k == 6 then SyncingTemporary(0)
    else if k == 7 then CheckingCurrent(0)
    else Publishing(0)
  }

  function PendingAt(k: nat): seq<DirOp> {
    if k <= 4 then [] else [Create(Temporary, 0)]
  }

  lemma EmptyView(s: Store)
    requires s.base == map[] && (s.pending == [] || s.pending == [Create(Temporary, 0)])
    ensures View(s) == if s.pending == [] then map[] else map[Temporary := 0]
  {
    if s.pending != [] {
      assert s.pending[..0] == [];
      assert Survivors(s.base, [], All) == s.base;
      assert View(s) == Applied(s.base, s.pending[0]);
    }
  }

  lemma NothingToRotate(s: Store, hash: Data -> Data)
    requires View(s) == map[Temporary := 0]
    ensures LoadNamed(s, Current, hash) == None
  {
    hide View;
  }

  lemma UnderwayNext(s: Store, snapshot: Snapshot, k: nat, hash: Data -> Data)
    requires Underway(s, snapshot, k) && 2 <= k < 8
    ensures Underway(Advanced(s, hash), snapshot, k + 1)
  {
    hide Payload;
    hide View;
    hide LoadNamed;
    EmptyView(s);
    if k == 7 {
      NothingToRotate(s, hash);
    }
  }

  lemma {:induction false} UnderwayUntil(snapshot: Snapshot, k: nat, hash: Data -> Data)
    requires Validation(snapshot, hash) == Pass && 2 <= k <= 8
    ensures Underway(Run(NEW_DISK, FirstCommit(snapshot)[..k], hash), snapshot, k)
  {
    hide Run;
    hide Validation;
    var e := FirstCommit(snapshot);
    if k == 2 {
      RunNext(NEW_DISK, e, 0, hash);
      RunNext(NEW_DISK, e, 1, hash);
    } else {
      hide Underway;
      UnderwayUntil(snapshot, k - 1, hash);
      RunNext(NEW_DISK, e, k - 1, hash);
      UnderwayNext(Run(NEW_DISK, e[..k - 1], hash), snapshot, k - 1, hash);
    }
  }

  lemma UnderwayEnds(s: Store, snapshot: Snapshot, hash: Data -> Data)
    requires Underway(s, snapshot, 8)
    ensures var t := Advanced(Advanced(s, hash), hash);
            t.attempted == [snapshot] && t.succeeded == Some(0) && t.route == Unsynced && !t.lost
  {
    hide View;
  }

  lemma FirstCommitSucceeds(snapshot: Snapshot, hash: Data -> Data)
    requires IsValid(snapshot, hash)
    ensures var t := Run(NEW_DISK, FirstCommit(snapshot), hash);
            t.attempted == [snapshot] && t.succeeded == Some(0) && t.route == Unsynced && !t.lost
  {
    ValidationIsValid(snapshot, hash);
    var e := FirstCommit(snapshot);
    UnderwayUntil(snapshot, 8, hash);
    RunNext(NEW_DISK, e, 8, hash);
    RunNext(NEW_DISK, e, 9, hash);
    hide Run;
    hide Advanced;
    hide Underway;
    hide IsValid;
    UnderwayEnds(Run(NEW_DISK, e[..8], hash), snapshot, hash);
  }

  // ---------------------------------------------------------------- the previous file

  lemma {:induction false} PreviousStays(start: Store, later: seq<Event>, hash: Data -> Data)
    requires Inv(start, hash) && start.route == Durable && PreviousDecodes(start, start.base, hash)
    ensures var s := Run(start, later, hash);
            s.route == Durable && PreviousDecodes(s, s.base, hash)
  {
    hide *;
    if later == [] {
      RunNothing(start, hash);
    } else {
      var n := |later| - 1;
      RunStep(start, later, hash);
      PreviousStays(start, later[..n], hash);
      RunKeepsInv(start, later[..n], hash);
      StepKeepsRoute(Run(start, later[..n], hash), later[n], hash);
      StepKeepsInv(Run(start, later[..n], hash), later[n], hash);
    }
  }

  /** Once the previous file on disk holds a snapshot it is only ever replaced by one that does, so that it always loads,
      if and only if the route's directory is durable. */
  lemma PreviousSurvives(start: Store, earlier: seq<Event>, hash: Data -> Data)
    requires Starts(start)
    requires PreviousDecodes(Run(start, earlier, hash), Run(start, earlier, hash).base, hash)
    ensures var s := Run(start, earlier, hash);
            (forall later: seq<Event> :: LoadNamed(Run(s, later, hash), Previous, hash).Some?) <==> s.route == Durable
  {
    var s := Run(start, earlier, hash);
    StartKeepsInv(start, hash);
    RunKeepsInv(start, earlier, hash);
    hide *;
    if s.route == Durable {
      forall later: seq<Event>
        ensures LoadNamed(Run(s, later, hash), Previous, hash).Some?
      {
        RunKeepsInv(s, later, hash);
        PreviousStays(s, later, hash);
        LoadsPrevious(Run(s, later, hash), hash);
      }
    } else {
      LosesAll(s, hash);
    }
  }

  lemma LoadsPrevious(s: Store, hash: Data -> Data)
    requires Inv(s, hash) && PreviousDecodes(s, s.base, hash)
    ensures LoadNamed(s, Previous, hash).Some?
  {
    hide OpOk;
    hide DecodedSnapshot;
    hide IsValid;
    SurvivorsAreGood(s, s.base, s.pending, All, hash);
  }

  // ---------------------------------------------------------------- rotation

  function FileOf(op: DirOp): nat {
    match op
    case Create(_, file) => file
    case Remove(_) => 0
    case Move(_, _, file) => file
  }

  /** Directory entries, and those about to be made, name files that there are. */
  ghost predicate HasFiles(s: Store) {
    && (forall name | name in s.base :: s.base[name] < |s.files|)
    && (forall i | 0 <= i < |s.pending| && !s.pending[i].Remove? :: FileOf(s.pending[i]) < |s.files|)
  }

  lemma {:induction false} SurvivorsInRange(base: Directory, pending: seq<DirOp>, kept: nat -> bool, files: nat)
    requires forall name | name in base :: base[name] < files
    requires forall i | 0 <= i < |pending| && !pending[i].Remove? :: FileOf(pending[i]) < files
    ensures forall name | name in Survivors(base, pending, kept) :: Survivors(base, pending, kept)[name] < files
    decreases |pending|
  {
    if pending != [] {
      SurvivorsInRange(base, pending[..|pending| - 1], kept, files);
      assert !pending[|pending| - 1].Remove? ==> FileOf(pending[|pending| - 1]) < files;
    }
  }

  lemma ViewInRange(s: Store)
    requires HasFiles(s)
    ensures forall name | name in View(s) :: View(s)[name] < |s.files|
  {
    SurvivorsInRange(s.base, s.pending, All, |s.files|);
  }

  lemma ChangedHasFiles(s: Store, op: DirOp)
    requires HasFiles(s) && (op.Remove? || FileOf(op) < |s.files|)
    ensures HasFiles(Changed(s, op))
  {
  }

  lemma RemovedHasFiles(s: Store, name: Name)
    requires HasFiles(s)
    ensures HasFiles(RemovedIfThere(s, name))
  {
    ChangedHasFiles(s, Remove(name));
    hide View;
    hide HasFiles;
  }

  /** Only the phase, the route and the books are different. */
  lemma SameDiskHasFiles(s: Store, t: Store)
    requires HasFiles(s) && t.base == s.base && t.pending == s.pending && |t.files| == |s.files|
    ensures HasFiles(t)
  {
  }

  lemma MovesInRange(s: Store, hash: Data -> Data)
    requires Inv(s, hash)
    ensures s.phase.Rotating? || s.phase.SyncingCopy? ==> s.phase.copy < |s.files|
    ensures s.phase.Publishing? ==> s.phase.temporary < |s.files|
  {
  }

  lemma CreatedHasFiles(s: Store, name: Name)
    requires HasFiles(s)
    ensures HasFiles(Created(s, name))
  {
  }

  lemma SyncedHasFiles(s: Store)
    requires HasFiles(s)
    ensures HasFiles(s.(base := View(s), pending := []))
  {
    ViewInRange(s);
    hide View;
  }

  lemma AdvancedHasFiles(s: Store, hash: Data -> Data)
    requires Inv(s, hash) && HasFiles(s)
    ensures HasFiles(Advanced(s, hash))
  {
    MovesInRange(s, hash);
    var t := Advanced(s, hash);
    hide *;
    AdvancedIs(s, hash);
    match s.phase
    case RemovingTemporary =>
      RemovedHasFiles(s, Temporary);
      SameDiskHasFiles(RemovedIfThere(s, Temporary), t);
    case RemovingPreviousTemporary =>
      RemovedHasFiles(s, PreviousTemporary);
      SameDiskHasFiles(RemovedIfThere(s, PreviousTemporary), t);
    case CreatingTemporary =>
      CreatedHasFiles(s, Temporary);
      SameDiskHasFiles(Created(s, Temporary), t);
    case CreatingCopy(_) =>
      CreatedHasFiles(s, PreviousTemporary);
      SameDiskHasFiles(Created(s, PreviousTemporary), t);
    case Rotating(_, c) =>
      ChangedHasFiles(s, Move(PreviousTemporary, Previous, c));
      SameDiskHasFiles(Changed(s, Move(PreviousTemporary, Previous, c)), t);
    case Publishing(c) =>
      ChangedHasFiles(s, Move(Temporary, Current, c));
      SameDiskHasFiles(Changed(s, Move(Temporary, Current, c)), t);
    case SyncingDirectory =>
      SyncedHasFiles(s);
      SameDiskHasFiles(s.(base := View(s), pending := []), t);
    case _ => SameDiskHasFiles(s, t);
  }

  /** What a step does to the disk. */
  lemma AdvancedIs(s: Store, hash: Data -> Data)
    ensures var t := Advanced(s, hash);
            match s.phase
            case RemovingTemporary => t == RemovedIfThere(s, Temporary).(phase := t.phase)
            case RemovingPreviousTemporary => t == RemovedIfThere(s, PreviousTemporary).(phase := t.phase)
            case CreatingTemporary => t == Created(s, Temporary).(phase := t.phase)
            case CreatingCopy(_) => t == Created(s, PreviousTemporary).(phase := t.phase)
            case Rotating(_, c) => t == Changed(s, Move(PreviousTemporary, Previous, c)).(phase := t.phase)
            case Publishing(c) => t == Changed(s, Move(Temporary, Current, c)).(phase := t.phase)
            case SyncingDirectory => t.base == View(s) && t.pending == [] && t.files == s.files
            case _ => t.base == s.base && t.pending == s.pending && |t.files| == |s.files|
  {
    hide View;
    hide LoadNamed;
    hide CopyOf;
    hide Payload;
  }

  lemma StepHasFiles(s: Store, e: Event, hash: Data -> Data)
    requires Inv(s, hash) && HasFiles(s)
    ensures HasFiles(Next(s, e, hash))
  {
    match e
    case Advance => AdvancedHasFiles(s, hash);
    case Crash(kept, garbage, dropRoute) =>
      SurvivorsInRange(s.base, s.pending, kept, |s.files|);
      hide Inv;
    case Fail(cleanTemporary, cleanCopy) =>
      hide *;
      if s.phase != Idle {
        FailedHasFiles(s, cleanTemporary, cleanCopy);
      }
      FailIs(s, e, hash);
    case _ =>
      hide Inv;
      hide Validation;
  }

  lemma FailIs(s: Store, e: Event, hash: Data -> Data)
    requires e.Fail?
    ensures Next(s, e, hash) == if s.phase == Idle then s else Failed(s, e.cleanTemporary, e.cleanCopy)
  {
  }

  lemma FailedHasFiles(s: Store, cleanTemporary: bool, cleanCopy: bool)
    requires HasFiles(s)
    ensures HasFiles(Failed(s, cleanTemporary, cleanCopy))
  {
    var t := if cleanTemporary then RemovedIfThere(s, Temporary) else s;
    RemovedHasFiles(s, Temporary);
    RemovedHasFiles(t, PreviousTemporary);
    hide RemovedIfThere;
  }

  lemma {:induction false} RunHasFiles(start: Store, events: seq<Event>, hash: Data -> Data)
    requires Inv(start, hash) && HasFiles(start)
    ensures HasFiles(Run(start, events, hash))
  {
    hide *;
    if events == [] {
      RunNothing(start, hash);
    } else {
      var n := |events| - 1;
      RunStep(start, events, hash);
      RunHasFiles(start, events[..n], hash);
      RunKeepsInv(start, events[..n], hash);
      StepHasFiles(Run(start, events[..n], hash), events[n], hash);
    }
  }

  /** Writing to file `file` leaves alone what is seen under the two names. */
  ghost predicate IsApart(s: Store, file: nat) {
    && (Current in View(s) ==> View(s)[Current] != file)
    && (Previous in View(s) ==> View(s)[Previous] != file)
  }

  ghost predicate Sees(s: Store, current: Option<Data>, previous: Option<Data>) {
    Contents(s, Current) == current && Contents(s, Previous) == previous
  }

  /** What is to be seen under the previous name in the end: the current file, if that loads. */
  function Rotated(current: Option<Data>, previous: Option<Data>, hash: Data -> Data): Option<Data> {
    if current.Some? && DecodedSnapshot(current.value, hash).Ok? then current else previous
  }

  /** A commit of `snapshot` that began where `current` and `previous` were seen. */
  ghost predicate Proceeds(u: Store, snapshot: Snapshot, current: Option<Data>, previous: Option<Data>, hash: Data -> Data)
  {
    && u.attempted != [] && u.attempted[|u.attempted| - 1] == snapshot
    && match u.phase
       case Idle => Encodable(snapshot) && HasRotated(u, Some(CanonicalWire(snapshot)), current, previous, hash)
       case SyncingDirectory =>
         Encodable(snapshot) && HasRotated(u, Some(CanonicalWire(snapshot)), current, previous, hash)
       case Publishing(_) => HasRotated(u, current, current, previous, hash)
       case WritingTemporary(t) => Sees(u, current, previous) && IsApart(u, t)
       case SyncingTemporary(t) => Sees(u, current, previous) && IsApart(u, t)
       case WritingCopy(_, c) => Sees(u, current, previous) && IsApart(u, c) && Rotates(current, hash)
       case SyncingCopy(_, c) => Sees(u, current, previous) && IsApart(u, c) && Rotates(current, hash)
       case CreatingCopy(_) => Sees(u, current, previous) && Rotates(current, hash)
       case Rotating(_, c) =>
         Sees(u, current, previous) && Rotates(current, hash) && c < |u.files| && u.files[c].bytes == current.value
       case _ => Sees(u, current, previous)
  }

  /** The previous name stands for what the current one did, if that loaded, in a file that is synced. */
  ghost predicate HasRotated(u: Store, now: Option<Data>, current: Option<Data>, previous: Option<Data>,
                             hash: Data -> Data)
  {
    && Sees(u, now, Rotated(current, previous, hash))
    && (Rotates(current, hash) ==> PreviousDecodes(u, View(u), hash))
  }

  ghost predicate Rotates(current: Option<Data>, hash: Data -> Data) {
    current.Some? && DecodedSnapshot(current.value, hash).Ok?
  }

  lemma SeesAfterChange(s: Store, op: DirOp)
    requires HasFiles(s)
    ensures forall name | (op.Create? && name != op.name) || (op.Remove? && name != op.name)
                          || (op.Move? && name != op.source && name != op.target) ::
              Contents(Changed(s, op), name) == Contents(s, name)
    ensures op.Move? && op.file < |s.files| ==> Contents(Changed(s, op), op.target) == Some(s.files[op.file].bytes)
  {
    ViewChanged(s, op);
    hide View;
  }

  lemma SeesAfterCreate(s: Store, name: Name)
    requires HasFiles(s) && name != Current && name != Previous
    ensures var t := Created(s, name);
            && Contents(t, Current) == Contents(s, Current) && Contents(t, Previous) == Contents(s, Previous)
            && IsApart(t, |s.files|)
  {
    ViewChanged(s, Create(name, |s.files|));
    ViewInRange(s);
    assert View(Created(s, name)) == View(Changed(s, Create(name, |s.files|)));
    hide View;
  }

  lemma SeesAfterWrite(s: Store, file: nat, bytes: Data, durable: bool)
    requires IsApart(s, file)
    ensures var t := Written(s, file, bytes, durable);
            && Contents(t, Current) == Contents(s, Current) && Contents(t, Previous) == Contents(s, Previous)
            && IsApart(t, file)
            && (file < |s.files| ==> file < |t.files| && t.files[file].bytes == bytes)
  {
    assert View(Written(s, file, bytes, durable)) == View(s);
    hide View;
  }

  lemma SeesAfterPhase(s: Store, phase: Phase, route: Route)
    ensures var t := s.(phase := phase, route := route);
            && Contents(t, Current) == Contents(s, Current) && Contents(t, Previous) == Contents(s, Previous)
            && View(t) == View(s)
  {
    hide Survivors;
  }

  lemma SeesAfterRemove(s: Store, name: Name)
    requires HasFiles(s) && name != Current && name != Previous
    ensures var t := RemovedIfThere(s, name);
            Contents(t, Current) == Contents(s, Current) && Contents(t, Previous) == Contents(s, Previous)
  {
    SeesAfterChange(s, Remove(name));
    hide View;
    hide Contents;
  }

  lemma LoadIs(s: Store, hash: Data -> Data)
    ensures LoadNamed(s, Current, hash).Some? <==> Rotates(Contents(s, Current), hash)
    ensures Contents(s, Current).Some? ==> CopyOf(s) == Contents(s, Current).value
  {
    hide Contents;
    hide DecodedSnapshot;
  }

  lemma StepProceeds(u: Store, snapshot: Snapshot, current: Option<Data>, previous: Option<Data>, hash: Data -> Data)
    requires Inv(u, hash) && HasFiles(u) && Proceeds(u, snapshot, current, previous, hash)
    ensures Proceeds(Advanced(u, hash), snapshot, current, previous, hash)
  {
    MovesInRange(u, hash);
    if u.phase.Idle? || u.phase.Publishing? || u.phase.SyncingDirectory? || u.phase.Rotating? {
      PublishingWire(u, hash);
      RotatingDecodes(u, hash);
      hide *;
      EndProceeds(u, snapshot, current, previous, hash);
    } else {
      hide *;
      StartProceeds(u, snapshot, current, previous, hash);
    }
  }

  lemma RotatingDecodes(s: Store, hash: Data -> Data)
    requires Inv(s, hash)
    ensures s.phase.Rotating? ==> Decodes(s, s.phase.copy, hash)
  {
    hide Decodes;
    hide OpsOk;
    hide AllValid;
    hide Stored;
  }

  lemma PublishingWire(s: Store, hash: Data -> Data)
    requires Inv(s, hash)
    ensures s.phase.Publishing? && s.attempted != [] ==>
              && Encodable(s.attempted[|s.attempted| - 1]) && s.phase.temporary < |s.files|
              && s.files[s.phase.temporary].bytes == CanonicalWire(s.attempted[|s.attempted| - 1])
  {
    hide *;
    if s.phase.Publishing? && s.attempted != [] {
      PayloadIsWire(s, hash);
      PublishingIsStored(s, hash);
    }
  }

  lemma PublishingIsStored(s: Store, hash: Data -> Data)
    requires Inv(s, hash) && s.phase.Publishing?
    ensures s.phase.temporary < |s.files| && s.files[s.phase.temporary].bytes == Payload(s)
  {
    hide Payload;
    hide OpsOk;
    hide AllValid;
  }

  lemma StartProceeds(u: Store, snapshot: Snapshot, current: Option<Data>, previous: Option<Data>, hash: Data -> Data)
    requires HasFiles(u) && Proceeds(u, snapshot, current, previous, hash)
    requires !(u.phase.Idle? || u.phase.Publishing? || u.phase.SyncingDirectory? || u.phase.Rotating?)
    requires u.phase.SyncingCopy? ==> u.phase.copy < |u.files|
    ensures Proceeds(Advanced(u, hash), snapshot, current, previous, hash)
  {
    var v := Advanced(u, hash);
    LoadIs(u, hash);
    hide View;
    hide Contents;
    hide LoadNamed;
    hide CopyOf;
    hide DecodedSnapshot;
    hide CanonicalWire;
    hide HasFiles;
    hide IsApart;
    hide Payload;
    hide RemovedIfThere;
    RemovedKeeps(u, Temporary);
    RemovedKeeps(u, PreviousTemporary);
    match u.phase
    case EnsuringRoute => SeesAfterPhase(u, v.phase, v.route);
    case RemovingTemporary =>
      SeesAfterRemove(u, Temporary);
      SeesAfterPhase(RemovedIfThere(u, Temporary), v.phase, v.route);
    case RemovingPreviousTemporary =>
      SeesAfterRemove(u, PreviousTemporary);
      SeesAfterPhase(RemovedIfThere(u, PreviousTemporary), v.phase, v.route);
    case CreatingTemporary =>
      SeesAfterCreate(u, Temporary);
      SeesAfterPhase(Created(u, Temporary), v.phase, v.route);
      ApartAfterPhase(Created(u, Temporary), |u.files|, v.phase);
    case WritingTemporary(t) =>
      SeesAfterWrite(u, t, Payload(u), false);
      SeesAfterPhase(Written(u, t, Payload(u), false), v.phase, v.route);
      ApartAfterPhase(Written(u, t, Payload(u), false), t, v.phase);
    case SyncingTemporary(t) =>
      SeesAfterWrite(u, t, Payload(u), true);
      SeesAfterPhase(Written(u, t, Payload(u), true), v.phase, v.route);
    case CheckingCurrent(t) => SeesAfterPhase(u, v.phase, v.route);
    case CreatingCopy(t) =>
      SeesAfterCreate(u, PreviousTemporary);
      SeesAfterPhase(Created(u, PreviousTemporary), v.phase, v.route);
      ApartAfterPhase(Created(u, PreviousTemporary), |u.files|, v.phase);
    case WritingCopy(t, c) =>
      SeesAfterWrite(u, c, CopyOf(u), false);
      SeesAfterPhase(Written(u, c, CopyOf(u), false), v.phase, v.route);
      ApartAfterPhase(Written(u, c, CopyOf(u), false), c, v.phase);
    case SyncingCopy(t, c) =>
      SeesAfterWrite(u, c, CopyOf(u), true);
      SeesAfterPhase(Written(u, c, CopyOf(u), true), v.phase, v.route);
  }

  lemma EndProceeds(u: Store, snapshot: Snapshot, current: Option<Data>, previous: Option<Data>, hash: Data -> Data)
    requires HasFiles(u) && Proceeds(u, snapshot, current, previous, hash)
    requires u.phase.Idle? || u.phase.Publishing? || u.phase.SyncingDirectory? || u.phase.Rotating?
    requires u.phase.Publishing? && u.attempted != [] ==>
               && Encodable(u.attempted[|u.attempted| - 1]) && u.phase.temporary < |u.files|
               && u.files[u.phase.temporary].bytes == CanonicalWire(u.attempted[|u.attempted| - 1])
    requires u.phase.Rotating? ==> Decodes(u, u.phase.copy, hash)
    ensures Proceeds(Advanced(u, hash), snapshot, current, previous, hash)
  {
    var v := Advanced(u, hash);
    hide View;
    hide Contents;
    hide LoadNamed;
    hide DecodedSnapshot;
    hide CanonicalWire;
    hide HasFiles;
    match u.phase
    case Idle =>
    case Rotating(t, c) =>
      SeesAfterChange(u, Move(PreviousTemporary, Previous, c));
      SeesAfterPhase(Changed(u, Move(PreviousTemporary, Previous, c)), v.phase, v.route);
      ViewChanged(u, Move(PreviousTemporary, Previous, c));
    case Publishing(t) =>
      SeesAfterChange(u, Move(Temporary, Current, t));
      SeesAfterPhase(Changed(u, Move(Temporary, Current, t)), v.phase, v.route);
      ViewChanged(u, Move(Temporary, Current, t));
    case SyncingDirectory => SeesAfterSync(u, v);
  }

  lemma ApartAfterPhase(s: Store, file: nat, phase: Phase)
    requires IsApart(s, file)
    ensures IsApart(s.(phase := phase), file)
  {
    SeesAfterPhase(s, phase, s.route);
    hide View;
  }

  lemma PayloadIsWire(s: Store, hash: Data -> Data)
    requires Inv(s, hash) && s.attempted != []
    ensures var snapshot := s.attempted[|s.attempted| - 1];
            Encodable(snapshot) && Payload(s) == CanonicalWire(snapshot)
  {
    ValidFits(s.attempted[|s.attempted| - 1], hash);
    hide IsValid;
    hide CanonicalWire;
    hide OpOk;
    hide PhaseOk;
  }

  lemma SeesAfterSync(s: Store, t: Store)
    requires t.base == View(s) && t.pending == [] && t.files == s.files
    ensures Contents(t, Current) == Contents(s, Current) && Contents(t, Previous) == Contents(s, Previous)
    ensures View(t) == View(s) == t.base
  {
    assert View(t) == t.base;
    hide View;
  }

  /** A commit in which no step is skipped. */
  ghost predicate IsWholeCommit(s: Store, commit: seq<Event>, hash: Data -> Data) {
    IsCommit(s, commit, hash) && forall i | 0 < i < |commit| :: commit[i].Advance?
  }

  /** While it is under way the commit's success is still to come. */
  ghost predicate IsUnderway(s: Store, u: Store) {
    |u.attempted| == |s.attempted| + 1 && (if u.phase == Idle then u.pending == [] else u.succeeded == s.succeeded)
  }

  lemma AdvanceIsUnderway(s: Store, u: Store, hash: Data -> Data)
    requires IsUnderway(s, u)
    ensures IsUnderway(s, Advanced(u, hash))
  {
    hide View;
    hide LoadNamed;
    hide CopyOf;
    hide Payload;
    hide RemovedIfThere;
    RemovedKeeps(u, Temporary);
    RemovedKeeps(u, PreviousTemporary);
  }

  /** If the commit is refused at its begin, nothing happens. */
  lemma {:induction false} RefusedStays(s: Store, commit: seq<Event>, hash: Data -> Data)
    requires commit != [] && commit[0].Begin? && (forall i | 0 < i < |commit| :: commit[i].Advance?)
    requires s.phase == Idle && Validation(commit[0].snapshot, hash) != Pass
    ensures Run(s, commit, hash) == s
  {
    hide Validation;
    var n := |commit| - 1;
    RunStep(s, commit, hash);
    if n > 0 {
      RefusedStays(s, commit[..n], hash);
    } else {
      RunNothing(s, hash);
    }
    hide Run;
  }

  lemma {:induction false} CommitProceeds(s: Store, commit: seq<Event>, hash: Data -> Data)
    requires Inv(s, hash) && HasFiles(s) && s.phase == Idle
    requires commit != [] && commit[0].Begin? && (forall i | 0 < i < |commit| :: commit[i].Advance?)
    requires Validation(commit[0].snapshot, hash) == Pass
    ensures var u := Run(s, commit, hash);
            && Proceeds(u, commit[0].snapshot, Contents(s, Current), Contents(s, Previous), hash) && IsUnderway(s, u)
  {
    hide *;
    var n := |commit| - 1;
    RunStep(s, commit, hash);
    if n > 0 {
      CommitProceeds(s, commit[..n], hash);
      var u := Run(s, commit[..n], hash);
      RunKeepsInv(s, commit[..n], hash);
      RunHasFiles(s, commit[..n], hash);
      StepProceeds(u, commit[0].snapshot, Contents(s, Current), Contents(s, Previous), hash);
      AdvanceIsUnderway(s, u, hash);
      AdvanceIs(u, hash);
    } else {
      RunNothing(s, hash);
      BeginProceeds(s, commit[0], hash);
    }
  }

  lemma AdvanceIs(s: Store, hash: Data -> Data)
    ensures Next(s, Advance, hash) == Advanced(s, hash)
  {
    hide Advanced;
  }

  lemma BeginProceeds(s: Store, begin: Event, hash: Data -> Data)
    requires s.phase == Idle && begin.Begin? && Validation(begin.snapshot, hash) == Pass
    ensures var u := Next(s, begin, hash);
            && Proceeds(u, begin.snapshot, Contents(s, Current), Contents(s, Previous), hash) && IsUnderway(s, u)
  {
    hide Validation;
    hide Survivors;
  }

  /** After a whole commit the current file is the new snapshot, and the previous one is what the current was, if that
      loaded; else it is as it was. */
  lemma CommitRotates(start: Store, earlier: seq<Event>, commit: seq<Event>, hash: Data -> Data)
    requires Starts(start) && HasFiles(start) && IsWholeCommit(Run(start, earlier, hash), commit, hash)
    ensures var s := Run(start, earlier, hash);
            var t := Run(s, commit, hash);
            && LoadNamed(t, Current, hash) == Some(commit[0].snapshot)
            && LoadNamed(t, Previous, hash)
            == (if LoadNamed(s, Current, hash).Some? then LoadNamed(s, Current, hash) else LoadNamed(s, Previous, hash))
  {
    var s := Run(start, earlier, hash);
    var t := Run(s, commit, hash);
    StartKeepsInv(start, hash);
    RunKeepsInv(start, earlier, hash);
    RunHasFiles(start, earlier, hash);
    WholeCommitSucceeds(s, commit, hash);
    hide *;
    CommitProceeds(s, commit, hash);
    RunKeepsInv(s, commit, hash);
    EndsRotated(s, t, commit[0].snapshot, hash);
  }

  lemma WholeCommitSucceeds(s: Store, commit: seq<Event>, hash: Data -> Data)
    requires Inv(s, hash) && IsWholeCommit(s, commit, hash)
    ensures commit != [] && commit[0].Begin? && (forall i | 0 < i < |commit| :: commit[i].Advance?)
    ensures s.phase == Idle && Validation(commit[0].snapshot, hash) == Pass
    ensures Run(s, commit, hash).succeeded == Some(|s.attempted|) != s.succeeded
  {
    hide *;
    WholeCommitMeans(s, commit, hash);
    if s.succeeded.Some? {
      SucceededInRange(s, hash);
    }
    if Validation(commit[0].snapshot, hash) != Pass {
      RefusedStays(s, commit, hash);
    }
  }

  lemma WholeCommitMeans(s: Store, commit: seq<Event>, hash: Data -> Data)
    requires IsWholeCommit(s, commit, hash)
    ensures commit != [] && commit[0].Begin? && (forall i | 0 < i < |commit| :: commit[i].Advance?)
    ensures s.phase == Idle && Run(s, commit, hash).succeeded == Some(|s.attempted|)
  {
    hide Run;
  }

  lemma EndsRotated(s: Store, t: Store, snapshot: Snapshot, hash: Data -> Data)
    requires Proceeds(t, snapshot, Contents(s, Current), Contents(s, Previous), hash) && IsUnderway(s, t)
    requires t.succeeded != s.succeeded && Inv(t, hash)
    ensures LoadNamed(t, Current, hash) == Some(snapshot)
    ensures LoadNamed(t, Previous, hash)
         == if LoadNamed(s, Current, hash).Some? then LoadNamed(s, Current, hash) else LoadNamed(s, Previous, hash)
  {
    hide *;
    LastIsValid(t, hash);
    EndMeans(s, t, snapshot, hash);
    DecodeEncode(snapshot, hash);
    LoadsContents(s, t, snapshot, hash);
  }

  lemma EndMeans(s: Store, t: Store, snapshot: Snapshot, hash: Data -> Data)
    requires Proceeds(t, snapshot, Contents(s, Current), Contents(s, Previous), hash) && IsUnderway(s, t)
    requires t.succeeded != s.succeeded
    ensures t.attempted != [] && t.attempted[|t.attempted| - 1] == snapshot && Encodable(snapshot)
    ensures Contents(t, Current) == Some(CanonicalWire(snapshot))
    ensures Contents(t, Previous) == Rotated(Contents(s, Current), Contents(s, Previous), hash)
  {
    hide Contents;
    hide DecodedSnapshot;
    hide CanonicalWire;
    hide View;
    hide Rotated;
  }

  lemma LoadsContents(s: Store, t: Store, snapshot: Snapshot, hash: Data -> Data)
    requires Encodable(snapshot) && Contents(t, Current) == Some(CanonicalWire(snapshot))
    requires DecodedSnapshot(CanonicalWire(snapshot), hash) == Ok(snapshot)
    requires Contents(t, Previous) == Rotated(Contents(s, Current), Contents(s, Previous), hash)
    ensures LoadNamed(t, Current, hash) == Some(snapshot)
    ensures LoadNamed(t, Previous, hash)
         == if LoadNamed(s, Current, hash).Some? then LoadNamed(s, Current, hash) else LoadNamed(s, Previous, hash)
  {
    hide Contents;
    hide DecodedSnapshot;
    hide CanonicalWire;
  }

  lemma LastIsValid(s: Store, hash: Data -> Data)
    requires Inv(s, hash)
    ensures s.attempted != [] ==> IsValid(s.attempted[|s.attempted| - 1], hash)
  {
    hide IsValid;
    hide PhaseOk;
    hide OpsOk;
  }

  /** So a second whole commit leaves the first to fall back on: whatever fails or crashes later, something loads as the
      previous snapshot, if and only if the route's directory was durable. */
  lemma FallsBack(start: Store, earlier: seq<Event>, commit: seq<Event>, hash: Data -> Data)
    requires Starts(start) && HasFiles(start) && IsWholeCommit(Run(start, earlier, hash), commit, hash)
    requires LoadNamed(Run(start, earlier, hash), Current, hash).Some?
    ensures var s := Run(start, earlier, hash);
            var t := Run(s, commit, hash);
            (forall later: seq<Event> :: LoadNamed(Run(t, later, hash), Previous, hash).Some?) <==> s.route == Durable
  {
    var s := Run(start, earlier, hash);
    var t := Run(s, commit, hash);
    StartKeepsInv(start, hash);
    RunKeepsInv(start, earlier, hash);
    RunKeepsInv(s, commit, hash);
    WholeCommitSucceeds(s, commit, hash);
    SuccessIsNew(s, commit, hash);
    RunHasFiles(start, earlier, hash);
    CommitProceeds(s, commit, hash);
    hide *;
    if s.route == Durable {
      PreviousIsSynced(s, t, commit[0].snapshot, hash);
      forall later: seq<Event>
        ensures LoadNamed(Run(t, later, hash), Previous, hash).Some?
      {
        PreviousStays(t, later, hash);
        RunKeepsInv(t, later, hash);
        LoadsPrevious(Run(t, later, hash), hash);
      }
    } else {
      LosesAll(t, hash);
    }
  }

  lemma PreviousIsSynced(s: Store, t: Store, snapshot: Snapshot, hash: Data -> Data)
    requires Proceeds(t, snapshot, Contents(s, Current), Contents(s, Previous), hash) && IsUnderway(s, t)
    requires t.succeeded != s.succeeded && LoadNamed(s, Current, hash).Some?
    ensures PreviousDecodes(t, t.base, hash)
  {
    LoadIs(s, hash);
    assert View(t) == t.base;
    hide View;
    hide Contents;
    hide DecodedSnapshot;
    hide CanonicalWire;
  }
}
