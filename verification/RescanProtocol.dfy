/** The event server and its registry: what a rescan reconciles, over whatever the driver sends and the socket loses. */
module RescanProtocol {
  import opened Bytes
  import opened SessionRegistries
  import opened Wrappers

  predicate RevealsGap(r: Registry, e: Event) {
    ResultOf(r, e) == APPLIED_WITH_GAP
  }

  /** An event and what the server does about it: on a gap every entry is marked stale, and a rescan is asked for. */
  function Handled(r: Registry, e: Event): Registry {
    var next := After(r, e);
    if RevealsGap(r, e) then AfterMarkStale(next, next.highestSequence) else next
  }

  function Polled(r: Registry, events: seq<Event>): Registry {
    if events == [] then r else Handled(Polled(r, events[..|events| - 1]), events[|events| - 1])
  }

  /** How often a rescan is asked for. */
  function Requests(r: Registry, events: seq<Event>): nat {
    if events == [] then 0
    else
      var n := |events| - 1;
      Requests(r, events[..n]) + if RevealsGap(Polled(r, events[..n]), events[n]) then 1 else 0
  }

  function Applied(r: Registry, events: seq<Event>): nat {
    if events == [] then 0
    else
      var n := |events| - 1;
      var result := ResultOf(Polled(r, events[..n]), events[n]);
      Applied(r, events[..n]) + if result.APPLIED? || result.APPLIED_WITH_GAP? then 1 else 0
  }

  method Poll(registry: SessionRegistry, events: seq<Event>) returns (applied: nat, requests: nat)
    modifies registry
    ensures registry.Fields() == Polled(old(registry.Fields()), events)
    ensures applied == Applied(old(registry.Fields()), events)
    ensures requests == Requests(old(registry.Fields()), events)
  {
    applied, requests := 0, 0;
    for i := 0 to |events|
      invariant registry.Fields() == Polled(old(registry.Fields()), events[..i])
      invariant applied == Applied(old(registry.Fields()), events[..i])
      invariant requests == Requests(old(registry.Fields()), events[..i])
    {
      assert events[..i + 1][..i] == events[..i];
      var result := registry.Apply(events[i]);
      if result.APPLIED? || result.APPLIED_WITH_GAP? {
        applied := applied + 1;
      }
      if result.APPLIED_WITH_GAP? {
        registry.MarkStaleAfter(registry.highestSequence);
        requests := requests + 1;
      }
    }
    assert events[..|events|] == events;
  }

  lemma PolledNext(r: Registry, events: seq<Event>, e: Event)
    ensures Polled(r, events + [e]) == Handled(Polled(r, events), e)
  {
    assert (events + [e])[..|events|] == events;
  }

  lemma {:induction false} PolledOn(r: Registry, first: seq<Event>, second: seq<Event>)
    ensures Polled(r, first + second) == Polled(Polled(r, first), second)
  {
    hide Handled;
    if second == [] {
      assert first + second == first;
    } else {
      var n := |second| - 1;
      PolledOn(r, first, second[..n]);
      PolledNext(r, first + second[..n], second[n]);
      assert first + second == first + second[..n] + [second[n]];
    }
  }

  lemma {:induction false} PollKeepsOrder(r: Registry, events: seq<Event>)
    requires Ordered(r)
    ensures Ordered(Polled(r, events)) && r.highestSequence <= Polled(r, events).highestSequence
  {
    if events != [] {
      PollKeepsOrder(r, events[..|events| - 1]);
      StepKeepsOrder(Polled(r, events[..|events| - 1]), Observe(events[|events| - 1]));
    }
  }

  // ---------------------------------------------------------------- what is held

  /** Context `k` is in the registry and needs no confirmation. */
  predicate Holds(r: Registry, k: Key) {
    k in r.contexts && !r.contexts[k].stale
  }

  /** The event replays `k`, or creates it while it is absent. */
  predicate Confirms(r: Registry, e: Event, k: Key) {
    && KeyOf(e) == k && ResultOf(r, e) == APPLIED && !IsTerminator(e)
    && (e.kind.RESCAN_RESPONSE? || (e.kind.CONTEXT_CREATED? && k !in r.contexts))
  }

  /** The event puts `k` in doubt, by a gap, or releases it. */
  predicate Forgets(r: Registry, e: Event, k: Key) {
    RevealsGap(r, e) || (ResultOf(r, e) == APPLIED && e.kind.CONTEXT_RELEASED? && KeyOf(e) == k)
  }

  ghost predicate KeepsSince(r: Registry, events: seq<Event>, i: nat, k: Key) {
    forall j | i <= j < |events| :: !Forgets(Polled(r, events[..j]), events[j], k)
  }

  ghost predicate ConfirmsAt(r: Registry, events: seq<Event>, i: nat, k: Key) {
    i < |events| && Confirms(Polled(r, events[..i]), events[i], k)
  }

  /** Some event confirms `k`, and after it no gap is revealed and `k` is not released. */
  ghost predicate IsConfirmed(r: Registry, events: seq<Event>, k: Key) {
    exists i: nat | ConfirmsAt(r, events, i, k) :: KeepsSince(r, events, i + 1, k)
  }

  lemma HoldsNext(r: Registry, e: Event, k: Key)
    requires Ordered(r)
    ensures Holds(Handled(r, e), k) <==> Confirms(r, e, k) || (Holds(r, k) && !Forgets(r, e, k))
  {
    StepKeepsOrder(r, Observe(e));
  }

  lemma KeepsNext(r: Registry, events: seq<Event>, e: Event, i: nat, k: Key)
    requires i <= |events|
    ensures KeepsSince(r, events + [e], i, k) <==> KeepsSince(r, events, i, k) && !Forgets(Polled(r, events), e, k)
  {
    var all, n := events + [e], |events|;
    assert all[..n] == events && all[n] == e;
    forall j | 0 <= j < n
      ensures all[j] == events[j] && all[..j] == events[..j]
    {
    }
    hide Forgets;
    hide Polled;
    if KeepsSince(r, all, i, k) {
      forall j | i <= j < n
        ensures !Forgets(Polled(r, events[..j]), events[j], k)
      {
        assert !Forgets(Polled(r, all[..j]), all[j], k);
      }
      assert !Forgets(Polled(r, all[..n]), all[n], k);
    }
  }

  lemma ConfirmedNext(r: Registry, events: seq<Event>, e: Event, k: Key)
    ensures IsConfirmed(r, events + [e], k)
       <==> Confirms(Polled(r, events), e, k) || (IsConfirmed(r, events, k) && !Forgets(Polled(r, events), e, k))
  {
    var all, n := events + [e], |events|;
    assert all[..n] == events && all[n] == e;
    hide Forgets;
    hide Confirms;
    hide Polled;
    forall i: nat | i < n
      ensures ConfirmsAt(r, all, i, k) <==> ConfirmsAt(r, events, i, k)
    {
      assert all[..i] == events[..i] && all[i] == events[i];
    }
    forall i: nat | i <= n
      ensures KeepsSince(r, all, i, k) <==> KeepsSince(r, events, i, k) && !Forgets(Polled(r, events), e, k)
    {
      KeepsNext(r, events, e, i, k);
    }
    assert ConfirmsAt(r, all, n, k) <==> Confirms(Polled(r, events), e, k);
    assert KeepsSince(r, all, n + 1, k);
    if IsConfirmed(r, all, k) {
      var i: nat :| ConfirmsAt(r, all, i, k) && KeepsSince(r, all, i + 1, k);
      assert i < n ==> ConfirmsAt(r, events, i, k) && KeepsSince(r, events, i + 1, k);
    }
    if IsConfirmed(r, events, k) && !Forgets(Polled(r, events), e, k) {
      var i: nat :| ConfirmsAt(r, events, i, k) && KeepsSince(r, events, i + 1, k);
      assert ConfirmsAt(r, all, i, k) && KeepsSince(r, all, i + 1, k);
    }
  }

  /** Whatever arrives, with gaps and replays and any number of their ends in between: held are the contexts confirmed
      since the last gap and not released after. */
  lemma {:induction false} HeldSince(r: Registry, events: seq<Event>, k: Key)
    requires Ordered(r)
    ensures Holds(Polled(r, events), k) <==> IsConfirmed(r, events, k) || (Holds(r, k) && KeepsSince(r, events, 0, k))
  {
    hide Handled;
    hide Confirms;
    hide Forgets;
    hide Ordered;
    hide Holds;
    if events != [] {
      var n := |events| - 1;
      HeldSince(r, events[..n], k);
      PollKeepsOrder(r, events[..n]);
      HoldsNext(Polled(r, events[..n]), events[n], k);
      assert Polled(r, events) == Handled(Polled(r, events[..n]), events[n]);
      hide Polled;
      hide IsConfirmed;
      hide KeepsSince;
      KeepsNext(r, events[..n], events[n], 0, k);
      ConfirmedNext(r, events[..n], events[n], k);
      assert events[..n] + [events[n]] == events;
    }
  }

  // ---------------------------------------------------------------- the end of a replay

  lemma TerminatorKeepsHeld(r: Registry, end: Event)
    requires Ordered(r) && IsTerminator(end)
    ensures var after := Handled(r, end);
            && (forall k :: k in after.contexts <==> Holds(r, k))
            && (forall k | k in after.contexts :: !after.contexts[k].stale)
            && !after.rescanNeeded
  {
  }

  /** The first end of a replay after a gap, or any later one, leaves exactly the contexts confirmed since the last gap
      before it, and none in doubt. */
  lemma RescanReconciles(r: Registry, gap: Event, events: seq<Event>, end: Event)
    requires Ordered(r) && RevealsGap(r, gap) && IsTerminator(end)
    ensures var marked := Handled(r, gap);
            var after := Handled(Polled(marked, events), end);
            && (forall k :: k in after.contexts <==> IsConfirmed(marked, events, k))
            && (forall k | k in after.contexts :: !after.contexts[k].stale)
            && !after.rescanNeeded
  {
    var marked := Handled(r, gap);
    StepKeepsOrder(r, Observe(gap));
    assert forall k :: !Holds(marked, k);
    PollKeepsOrder(marked, events);
    TerminatorKeepsHeld(Polled(marked, events), end);
    hide *;
    forall k: Key
      ensures Holds(Polled(marked, events), k) <==> IsConfirmed(marked, events, k)
    {
      HeldSince(marked, events, k);
    }
  }

  // ---------------------------------------------------------------- replays

  /** What arrives of a replay before its end: responses for different contexts. */
  ghost predicate IsReplay(replay: seq<Event>) {
    && (forall i | 0 <= i < |replay| :: replay[i].kind.RESCAN_RESPONSE? && !IsTerminator(replay[i]))
    && (forall i, j | 0 <= i < j < |replay| :: KeyOf(replay[i]) != KeyOf(replay[j]))
  }

  predicate IsNews(r: Registry, e: Event) {
    KeyOf(e) in r.contexts ==> e.sequence == 0 || e.sequence > r.contexts[KeyOf(e)].lastSequence
  }

  /** A response for `k` arrives, and with a number that the registry has not passed for `k`. */
  predicate Reports(r: Registry, replay: seq<Event>, k: Key) {
    exists i | 0 <= i < |replay| :: KeyOf(replay[i]) == k && IsNews(r, replay[i])
  }

  lemma ReportsNext(r: Registry, replay: seq<Event>, e: Event, k: Key)
    ensures Reports(r, replay + [e], k) <==> Reports(r, replay, k) || (k == KeyOf(e) && IsNews(r, e))
  {
    var all, n := replay + [e], |replay|;
    assert all[n] == e && all[..n] == replay;
    forall i | 0 <= i < n
      ensures all[i] == replay[i]
    {
    }
    hide IsNews;
    if Reports(r, replay, k) {
      var i :| 0 <= i < n && KeyOf(replay[i]) == k && IsNews(r, replay[i]);
      assert KeyOf(all[i]) == k && IsNews(r, all[i]);
    }
    if k == KeyOf(e) && IsNews(r, e) {
      assert KeyOf(all[n]) == k && IsNews(r, all[n]);
    }
  }

  /** What a replay does: the reported contexts are held, every other entry is as it was. */
  ghost predicate IsReplayed(r: Registry, replay: seq<Event>, now: Registry) {
    && (forall k :: Holds(now, k) <==> Reports(r, replay, k) || Holds(r, k))
    && (forall k | !Reports(r, replay, k) :: k in now.contexts <==> k in r.contexts)
    && (forall k | k in r.contexts && !Reports(r, replay, k) :: now.contexts[k] == r.contexts[k])
  }

  lemma ResponseIsHeld(r: Registry, e: Event)
    requires e.kind.RESCAN_RESPONSE? && !IsTerminator(e)
    ensures !IsNews(r, e) ==> Handled(r, e) == r
    ensures IsNews(r, e) ==> Holds(Handled(r, e), KeyOf(e))
    ensures forall k | k != KeyOf(e) :: k in Handled(r, e).contexts <==> k in r.contexts
    ensures forall k | k != KeyOf(e) && k in r.contexts :: Handled(r, e).contexts[k] == r.contexts[k]
  {
  }

  lemma {:induction false} ReplayIsHeld(r: Registry, replay: seq<Event>)
    requires IsReplay(replay)
    ensures IsReplayed(r, replay, Polled(r, replay))
  {
    hide Handled;
    hide IsReplayed;
    if replay == [] {
      NothingReplayed(r);
    } else {
      var n := |replay| - 1;
      ReplayIsHeld(r, replay[..n]);
      hide Polled;
      PolledNext(r, replay[..n], replay[n]);
      assert replay == replay[..n] + [replay[n]];
      assert !Reports(r, replay[..n], KeyOf(replay[n]));
      ReplayedNext(r, replay[..n], Polled(r, replay[..n]), replay[n]);
    }
  }

  lemma NothingReplayed(r: Registry)
    ensures IsReplayed(r, [], r)
  {
  }

  lemma ReplayedNext(r: Registry, replay: seq<Event>, now: Registry, e: Event)
    requires IsReplayed(r, replay, now) && !Reports(r, replay, KeyOf(e))
    requires e.kind.RESCAN_RESPONSE? && !IsTerminator(e)
    ensures IsReplayed(r, replay + [e], Handled(now, e))
  {
    hide Handled;
    ResponseIsHeld(now, e);
    hide Reports;
    assert IsNews(now, e) <==> IsNews(r, e);
    forall k: Key
      ensures Reports(r, replay + [e], k) <==> Reports(r, replay, k) || (k == KeyOf(e) && IsNews(r, e))
    {
      ReportsNext(r, replay, e, k);
    }
    hide IsNews;
    hide KeyOf;
  }

  /** After a replay the registry holds the driver's contexts if and only if each of those was reported or held already,
      and nothing else was. */
  lemma ReplayReconciles(r: Registry, replay: seq<Event>, end: Event, existing: set<Key>)
    requires Ordered(r) && IsReplay(replay) && IsTerminator(end)
    requires forall k | Reports(r, replay, k) :: k in existing
    ensures Polled(r, replay + [end]).contexts.Keys == existing
       <==> && (forall k | k in existing :: Reports(r, replay, k) || Holds(r, k))
            && (forall k | Holds(r, k) :: k in existing)
  {
    PolledNext(r, replay, end);
    PollKeepsOrder(r, replay);
    TerminatorKeepsHeld(Polled(r, replay), end);
    ReplayIsHeld(r, replay);
    hide Polled;
    hide Holds;
    hide Handled;
    var after := Polled(r, replay + [end]);
    assert forall k :: k in after.contexts <==> Reports(r, replay, k) || Holds(r, k);
    assert forall k | Reports(r, replay, k) :: k in existing;
    assert after.contexts.Keys == existing <==> forall k :: k in after.contexts <==> k in existing;
  }

  /**
    The last replay outstanding, when it arrives whole after the last gap: it reconciles if and only if whatever was
    confirmed between the two is still there. Earlier replays, cut short by the gap or not, and their ends do not matter.
  */
  lemma LastReplayReconciles(r: Registry, gap: Event, between: seq<Event>, replay: seq<Event>, end: Event,
                             existing: set<Key>)
    requires Ordered(r) && RevealsGap(r, gap) && IsTerminator(end)
    requires IsReplay(replay) && forall k :: Reports(Polled(Handled(r, gap), between), replay, k) <==> k in existing
    ensures Polled(Polled(Handled(r, gap), between), replay + [end]).contexts.Keys == existing
       <==> forall k | IsConfirmed(Handled(r, gap), between, k) :: k in existing
  {
    var marked := Handled(r, gap);
    StepKeepsOrder(r, Observe(gap));
    assert forall k :: !Holds(marked, k);
    PollKeepsOrder(marked, between);
    hide *;
    ReplayReconciles(Polled(marked, between), replay, end, existing);
    forall k: Key
      ensures Holds(Polled(marked, between), k) <==> IsConfirmed(marked, between, k)
    {
      HeldSince(marked, between, k);
    }
  }

  // ---------------------------------------------------------------- what goes wrong

  /** After a gap, a context whose response is lost, or does not pass the number recorded for it, is erased by the end of the replay. */
  lemma LostResponseErases(r: Registry, gap: Event, replay: seq<Event>, end: Event, k: Key)
    requires Ordered(r) && RevealsGap(r, gap) && IsReplay(replay) && IsTerminator(end)
    ensures k in Polled(Handled(r, gap), replay + [end]).contexts <==> Reports(Handled(r, gap), replay, k)
  {
    var marked := Handled(r, gap);
    StepKeepsOrder(r, Observe(gap));
    assert !Holds(marked, k);
    PolledNext(marked, replay, end);
    PollKeepsOrder(marked, replay);
    TerminatorKeepsHeld(Polled(marked, replay), end);
    hide *;
    ReplayIsHeld(marked, replay);
  }

  function Told(kind: EventType, context: U64, sequence: U64): Event {
    Event(kind, 1, sequence, context, true, NOTHING_OBSERVED)
  }

  /** A gap in the middle of a replay: the end of that replay erases both the context it had confirmed and the one whose
      creation revealed the gap, and nothing seems outstanding until the second replay brings them back. */
  lemma FirstTerminatorErases()
    ensures var first := [Told(RESCAN_RESPONSE, 1, 2), Told(CONTEXT_CREATED, 2, 9), Told(RESCAN_RESPONSE, 0, 10)];
            var second := [Told(RESCAN_RESPONSE, 1, 11), Told(RESCAN_RESPONSE, 2, 12), Told(RESCAN_RESPONSE, 0, 13)];
            && Polled(EMPTY, first).contexts == map[] && !Polled(EMPTY, first).rescanNeeded
            && Requests(EMPTY, first) == 1
            && Polled(EMPTY, first + second).contexts.Keys == {Key(1, 1), Key(1, 2)}
  {
    var a, b, end := Told(RESCAN_RESPONSE, 1, 2), Told(CONTEXT_CREATED, 2, 9), Told(RESCAN_RESPONSE, 0, 10);
    var c, d, last := Told(RESCAN_RESPONSE, 1, 11), Told(RESCAN_RESPONSE, 2, 12), Told(RESCAN_RESPONSE, 0, 13);
    PollsThree(EMPTY, a, b, end);
    PolledOn(EMPTY, [a, b, end], [c, d, last]);
    hide Polled;
    hide Requests;
    hide Handled;
    hide RevealsGap;
    FirstReplayErases();
    SecondReplayRestores(Polled(EMPTY, [a, b, end]), c, d, last);
  }

  lemma SecondReplayRestores(r: Registry, c: Event, d: Event, last: Event)
    requires r.contexts == map[] && KeyOf(c) != KeyOf(d)
    requires c.kind.RESCAN_RESPONSE? && !IsTerminator(c) && d.kind.RESCAN_RESPONSE? && !IsTerminator(d)
    requires IsTerminator(last)
    ensures Polled(r, [c, d, last]).contexts.Keys == {KeyOf(c), KeyOf(d)}
  {
    hide Polled;
    hide Handled;
    assert [c, d, last] == [c, d] + [last];
    assert Reports(r, [c, d], KeyOf(c)) by { assert [c, d][0] == c; }
    assert Reports(r, [c, d], KeyOf(d)) by { assert [c, d][1] == d; }
    ReplayReconciles(r, [c, d], last, {KeyOf(c), KeyOf(d)});
  }

  lemma FirstReplayErases()
    ensures var a, b := Told(RESCAN_RESPONSE, 1, 2), Told(CONTEXT_CREATED, 2, 9);
            var half := Handled(EMPTY, a);
            var marked := Handled(half, b);
            var first := Handled(marked, Told(RESCAN_RESPONSE, 0, 10));
            && !RevealsGap(EMPTY, a) && RevealsGap(half, b) && !RevealsGap(marked, Told(RESCAN_RESPONSE, 0, 10))
            && first.contexts == map[] && !first.rescanNeeded
  {
    var half := Handled(EMPTY, Told(RESCAN_RESPONSE, 1, 2));
    assert half.contexts.Keys == {Key(1, 1)} && half.highestSequence == 2;
    var marked := Handled(half, Told(CONTEXT_CREATED, 2, 9));
    assert forall k | k in marked.contexts :: marked.contexts[k].stale && marked.contexts[k].lastSequence <= 9;
  }

  lemma PollsThree(r: Registry, a: Event, b: Event, c: Event)
    ensures Polled(r, [a, b, c]) == Handled(Handled(Handled(r, a), b), c)
    ensures Requests(r, [a, b, c]) == (if RevealsGap(r, a) then 1 else 0) + (if RevealsGap(Handled(r, a), b) then 1 else 0)
                                    + (if RevealsGap(Handled(Handled(r, a), b), c) then 1 else 0)
  {
    hide Handled;
    hide RevealsGap;
    assert [a, b, c][..2] == [a, b] && [a, b][..1] == [a] && [a][..0] == [];
    assert Polled(r, [a]) == Handled(Polled(r, []), a);
    assert Polled(r, [a, b]) == Handled(Polled(r, [a]), b);
    assert Requests(r, [a]) == if RevealsGap(r, a) then 1 else 0;
    assert Requests(r, [a, b]) == Requests(r, [a]) + if RevealsGap(Handled(r, a), b) then 1 else 0;
  }

  /** No context is known: events that create none are all ignored, gaps go unseen and no rescan is asked for. */
  lemma {:induction false} NothingComesBack(r: Registry, events: seq<Event>)
    requires r.contexts == map[] && !r.rescanNeeded
    requires forall i | 0 <= i < |events| :: !CreatesContext(events[i].kind)
    ensures Polled(r, events) == r && Requests(r, events) == 0 && Applied(r, events) == 0
  {
    if events != [] {
      NothingComesBack(r, events[..|events| - 1]);
    }
  }

  /** A live event of a known context, or one that creates a context, whose number skips some. */
  predicate Skips(r: Registry, e: Event) {
    && IsLifecycleEvent(e.kind) && !e.kind.RESCAN_RESPONSE?
    && (e.kind.CONTEXT_CREATED? || KeyOf(e) in r.contexts)
    && 0 < r.highestSequence && Successor(r.highestSequence) < e.sequence && IsNews(r, e)
  }

  lemma SkipsIff(r: Registry, e: Event)
    ensures RevealsGap(r, e) <==> Skips(r, e)
  {
  }

  lemma {:induction false} PolledFirst(r: Registry, e: Event, rest: seq<Event>)
    ensures Polled(r, [e] + rest) == Polled(Handled(r, e), rest)
    ensures Requests(r, [e] + rest) == (if RevealsGap(r, e) then 1 else 0) + Requests(Handled(r, e), rest)
  {
    hide Handled;
    hide RevealsGap;
    if rest == [] {
      assert [e][..0] == [] && [e] + rest == [e];
      assert Polled(r, [e]) == Handled(Polled(r, []), e);
    } else {
      var n := |rest| - 1;
      PolledFirst(r, e, rest[..n]);
      assert ([e] + rest)[..n + 1] == [e] + rest[..n];
    }
  }

  lemma PolledNone(r: Registry)
    ensures Polled(r, []) == r && Requests(r, []) == 0
  {
  }

  /** A gap, a replay whose only response is lost, and its end: the context is gone, and its later events are ignored,
      although another one is missing among them. */
  function LossyRun(): seq<Event> {
    [Told(CONTEXT_CREATED, 1, 1)] + ([Told(CONTEXT_ENABLED, 1, 3)] + ([Told(RESCAN_RESPONSE, 0, 5)]
    + ([Told(CONTEXT_DISABLED, 1, 6)] + ([Told(TELEMETRY, 1, 8)] + []))))
  }

  lemma LossyRunLoses()
    ensures var after := Polled(EMPTY, LossyRun());
            after.contexts == map[] && !after.rescanNeeded && Requests(EMPTY, LossyRun()) == 1
  {
    hide *;
    var create, enable, end := Told(CONTEXT_CREATED, 1, 1), Told(CONTEXT_ENABLED, 1, 3), Told(RESCAN_RESPONSE, 0, 5);
    var disable, telemetry := Told(CONTEXT_DISABLED, 1, 6), Told(TELEMETRY, 1, 8);
    var one := Handled(EMPTY, create);
    var two := Handled(one, enable);
    var three := Handled(two, end);
    LossyRunIs();
    LosesTheOnly();
    UnknownIsIgnored(three, disable);
    UnknownIsIgnored(three, telemetry);
    PolledNone(three);
    PolledFirst(three, telemetry, []);
    PolledFirst(three, disable, [telemetry] + []);
    PolledFirst(two, end, [disable] + ([telemetry] + []));
    PolledFirst(one, enable, [end] + ([disable] + ([telemetry] + [])));
    PolledFirst(EMPTY, create, [enable] + ([end] + ([disable] + ([telemetry] + []))));
  }

  lemma LossyRunIs()
    ensures LossyRun()
         == [Told(CONTEXT_CREATED, 1, 1)] + ([Told(CONTEXT_ENABLED, 1, 3)] + ([Told(RESCAN_RESPONSE, 0, 5)]
            + ([Told(CONTEXT_DISABLED, 1, 6)] + ([Told(TELEMETRY, 1, 8)] + []))))
    ensures !CreatesContext(Told(CONTEXT_DISABLED, 1, 6).kind) && !CreatesContext(Told(TELEMETRY, 1, 8).kind)
  {
  }

  lemma LosesTheOnly()
    ensures var create, enable := Told(CONTEXT_CREATED, 1, 1), Told(CONTEXT_ENABLED, 1, 3);
            var two := Handled(Handled(EMPTY, create), enable);
            var three := Handled(two, Told(RESCAN_RESPONSE, 0, 5));
            && !RevealsGap(EMPTY, create) && RevealsGap(Handled(EMPTY, create), enable)
            && !RevealsGap(two, Told(RESCAN_RESPONSE, 0, 5))
            && three.contexts == map[] && !three.rescanNeeded
  {
    var one := Handled(EMPTY, Told(CONTEXT_CREATED, 1, 1));
    assert one.contexts.Keys == {Key(1, 1)} && one.highestSequence == 1;
    var two := Handled(one, Told(CONTEXT_ENABLED, 1, 3));
    assert two.contexts.Keys == {Key(1, 1)} && two.contexts[Key(1, 1)].stale;
    assert two.contexts[Key(1, 1)].lastSequence == 3;
  }

  lemma UnknownIsIgnored(r: Registry, e: Event)
    requires r.contexts == map[] && !CreatesContext(e.kind)
    ensures Handled(r, e) == r && !RevealsGap(r, e)
  {
  }

  /** A held context that is not mentioned again stays held if and only if no event skips numbers; replays of others, and
      their ends, do not remove it. */
  lemma UnmentionedStays(r: Registry, events: seq<Event>, k: Key)
    requires Ordered(r) && Holds(r, k)
    requires forall i | 0 <= i < |events| :: KeyOf(events[i]) != k
    ensures Holds(Polled(r, events), k) <==> forall j | 0 <= j < |events| :: !Skips(Polled(r, events[..j]), events[j])
  {
    HeldSince(r, events, k);
    hide Polled;
    hide RevealsGap;
    hide Skips;
    forall j | 0 <= j < |events|
      ensures RevealsGap(Polled(r, events[..j]), events[j]) <==> Skips(Polled(r, events[..j]), events[j])
    {
      SkipsIff(Polled(r, events[..j]), events[j]);
    }
  }

  /**
    The audio server starts again: same boot id, context ids and numbers from 1. Until the numbers pass the old ones no
    gap is seen, and an old context stays as it was recorded: what the new process replays or does under the same id is
    taken for a repetition, and the end of the replay removes nothing.
  */
  lemma {:induction false} RestartGoesUnnoticed(r: Registry, events: seq<Event>, k: Key)
    requires Ordered(r) && Holds(r, k) && k.contextInstanceId != 0 && Successor(r.highestSequence) != 0
    requires forall i | 0 <= i < |events| :: 0 < events[i].sequence <= r.highestSequence
    requires forall i | 0 <= i < |events| && KeyOf(events[i]) == k :: events[i].sequence <= r.contexts[k].lastSequence
    ensures var now := Polled(r, events);
            && k in now.contexts && now.contexts[k] == r.contexts[k]
            && now.highestSequence == r.highestSequence && Requests(r, events) == 0
  {
    hide Handled;
    hide RevealsGap;
    if events != [] {
      var n := |events| - 1;
      RestartGoesUnnoticed(r, events[..n], k);
      OldNumberIsIgnored(Polled(r, events[..n]), events[n], k);
    }
  }

  lemma OldNumberIsIgnored(r: Registry, e: Event, k: Key)
    requires Holds(r, k) && k.contextInstanceId != 0 && Successor(r.highestSequence) != 0
    requires 0 < e.sequence <= r.highestSequence
    requires KeyOf(e) == k ==> e.sequence <= r.contexts[k].lastSequence
    ensures var now := Handled(r, e);
            && k in now.contexts && now.contexts[k] == r.contexts[k]
            && now.highestSequence == r.highestSequence && !RevealsGap(r, e)
  {
  }

  /** Two contexts, of which one is enabled; then the audio server starts again, says so, has no contexts to replay, and
      creates the first anew. The registry keeps both as they were. */
  lemma RestartKeepsOld()
    ensures var first := [Told(CONTEXT_CREATED, 1, 1), Told(CONTEXT_CREATED, 2, 2), Told(CONTEXT_ENABLED, 1, 3)];
            var second := [Told(DRIVER_HELLO, 0, 1), Told(RESCAN_RESPONSE, 0, 2), Told(CONTEXT_CREATED, 1, 3)];
            var before, after := Polled(EMPTY, first), Polled(EMPTY, first + second);
            && before.contexts.Keys == {Key(1, 1), Key(1, 2)} && before.contexts[Key(1, 1)].state == ACTIVE
            && after.contexts == before.contexts && Requests(before, second) == 0
  {
    var a, b, c := Told(CONTEXT_CREATED, 1, 1), Told(CONTEXT_CREATED, 2, 2), Told(CONTEXT_ENABLED, 1, 3);
    var d, e, f := Told(DRIVER_HELLO, 0, 1), Told(RESCAN_RESPONSE, 0, 2), Told(CONTEXT_CREATED, 1, 3);
    hide Polled;
    hide Requests;
    PollsThree(EMPTY, a, b, c);
    PolledOn(EMPTY, [a, b, c], [d, e, f]);
    var before := Polled(EMPTY, [a, b, c]);
    PollsThree(before, d, e, f);
    OldProcess();
    NewProcess(before);
  }

  predicate IsOld(r: Registry) {
    && r.contexts.Keys == {Key(1, 1), Key(1, 2)} && r.highestSequence == 3
    && r.contexts[Key(1, 1)].lastSequence == 3 && r.contexts[Key(1, 1)].state == ACTIVE
    && forall k | k in r.contexts :: !r.contexts[k].stale
  }

  lemma OldProcess()
    ensures IsOld(Handled(Handled(Handled(EMPTY, Told(CONTEXT_CREATED, 1, 1)), Told(CONTEXT_CREATED, 2, 2)),
                          Told(CONTEXT_ENABLED, 1, 3)))
  {
    var one := Handled(EMPTY, Told(CONTEXT_CREATED, 1, 1));
    assert one.contexts.Keys == {Key(1, 1)} && one.highestSequence == 1;
    var two := Handled(one, Told(CONTEXT_CREATED, 2, 2));
    assert two.contexts.Keys == {Key(1, 1), Key(1, 2)} && two.highestSequence == 2;
    assert two.contexts[Key(1, 1)].lastSequence == 1 && forall k | k in two.contexts :: !two.contexts[k].stale;
    hide Handled;
    BecomesOld(two);
  }

  lemma BecomesOld(r: Registry)
    requires r.contexts.Keys == {Key(1, 1), Key(1, 2)} && r.highestSequence == 2
    requires r.contexts[Key(1, 1)].lastSequence == 1 && forall k | k in r.contexts :: !r.contexts[k].stale
    ensures IsOld(Handled(r, Told(CONTEXT_ENABLED, 1, 3)))
  {
  }

  lemma NewProcess(r: Registry)
    requires IsOld(r)
    ensures var hello, end, create := Told(DRIVER_HELLO, 0, 1), Told(RESCAN_RESPONSE, 0, 2), Told(CONTEXT_CREATED, 1, 3);
            && !RevealsGap(r, hello) && !RevealsGap(Handled(r, hello), end)
            && !RevealsGap(Handled(Handled(r, hello), end), create)
            && Handled(Handled(Handled(r, hello), end), create).contexts == r.contexts
  {
    assert Handled(r, Told(DRIVER_HELLO, 0, 1)) == r;
    var ended := Handled(r, Told(RESCAN_RESPONSE, 0, 2));
    assert ended.contexts == r.contexts;
  }

  // ---------------------------------------------------------------- what is recorded

  /** The event is applied to context `k`, and leaves it in the registry. */
  predicate Applies(r: Registry, e: Event, k: Key) {
    var result := ResultOf(r, e);
    KeyOf(e) == k && (result.APPLIED? || result.APPLIED_WITH_GAP?) && !IsTerminator(e) && !e.kind.CONTEXT_RELEASED?
  }

  predicate AppliesAt(r: Registry, events: seq<Event>, i: nat, k: Key) {
    i < |events| && Applies(Polled(r, events[..i]), events[i], k)
  }

  /** What an event says the state of its context is. */
  function ToldState(e: Event): Option<ContextState> {
    if e.kind == CONTEXT_CREATED then Some(CREATED)
    else if e.kind == CONTEXT_CONFIGURED then Some(CONFIGURED)
    else if e.kind == CONTEXT_ENABLED || (e.kind == RESCAN_RESPONSE && e.enabled) then Some(ACTIVE)
    else if e.kind == CONTEXT_DISABLED || e.kind == RESCAN_RESPONSE then Some(INACTIVE)
    else None
  }

  function ToldRate(e: Event): Option<U32> {
    if e.observed.sampleRate == 0 then None else Some(e.observed.sampleRate)
  }

  function ToldMask(e: Event): Option<U32> {
    if e.observed.channelMask == 0 then None else Some(e.observed.channelMask)
  }

  /** What a value of an entry is after an event that says it is `told`, or says nothing about it. */
  function Heard<T>(told: Option<T>, before: T): T {
    if told.Some? then told.value else before
  }

  /** From event `i` on, context `k` never leaves the registry. */
  ghost predicate StaysIn(r: Registry, events: seq<Event>, i: nat, k: Key) {
    forall j | i < j <= |events| :: k in Polled(r, events[..j]).contexts
  }

  lemma RecordNext(r: Registry, e: Event, k: Key)
    requires k in Handled(r, e).contexts
    ensures var after := Handled(r, e).contexts[k];
            if Applies(r, e, k) then
              && after.lastSequence == e.sequence && after.observed.audioSessionId == e.observed.audioSessionId
              && after.observed.graphGeneration == e.observed.graphGeneration
              && after.observed.resourceGeneration == e.observed.resourceGeneration
              && (ToldState(e).Some? ==> after.state == ToldState(e).value)
              && (ToldRate(e).Some? ==> after.observed.sampleRate == ToldRate(e).value)
              && (ToldMask(e).Some? ==> after.observed.channelMask == ToldMask(e).value)
              && (k in r.contexts ==>
                    && after.state == Heard(ToldState(e), r.contexts[k].state)
                    && after.observed.sampleRate == Heard(ToldRate(e), r.contexts[k].observed.sampleRate)
                    && after.observed.channelMask == Heard(ToldMask(e), r.contexts[k].observed.channelMask))
            else k in r.contexts && after == r.contexts[k].(stale := after.stale)
  {
  }

  /** Event `i` says something of context `k` that no event after it says again. */
  ghost predicate SaidLast<T>(r: Registry, events: seq<Event>, i: nat, k: Key, told: Event -> Option<T>)
    requires i < |events|
  {
    told(events[i]).Some? && forall j | i < j < |events| && AppliesAt(r, events, j, k) :: told(events[j]) == None
  }

  lemma SaidBefore<T>(r: Registry, events: seq<Event>, i: nat, k: Key, told: Event -> Option<T>)
    requires i < |events| - 1 && SaidLast(r, events, i, k, told)
    ensures SaidLast(r, events[..|events| - 1], i, k, told)
    ensures AppliesAt(r, events, |events| - 1, k) ==> told(events[|events| - 1]) == None
  {
    hide Applies;
    hide Polled;
    var before := events[..|events| - 1];
    forall j | i < j < |before| && AppliesAt(r, before, j, k)
      ensures told(before[j]) == None
    {
      assert before[..j] == events[..j] && AppliesAt(r, events, j, k);
    }
  }

  /** The registry records of a context what the last event applied to it said. */
  lemma {:induction false} RecordedAsTold(r: Registry, events: seq<Event>, i: nat, k: Key)
    requires AppliesAt(r, events, i, k) && StaysIn(r, events, i, k)
    ensures k in Polled(r, events).contexts
    ensures var entry := Polled(r, events).contexts[k];
            && (SaidLast(r, events, i, k, ToldState) ==> entry.state == ToldState(events[i]).value)
            && (SaidLast(r, events, i, k, ToldRate) ==> entry.observed.sampleRate == ToldRate(events[i]).value)
            && (SaidLast(r, events, i, k, ToldMask) ==> entry.observed.channelMask == ToldMask(events[i]).value)
    decreases |events|
  {
    var last := |events| - 1;
    var before := events[..last];
    assert events[..|events|] == events;
    RecordNext(Polled(r, before), events[last], k);
    hide Handled;
    hide Applies;
    hide ToldState;
    hide ToldRate;
    hide ToldMask;
    if i < last {
      assert before[..i] == events[..i];
      forall j | i < j <= last ensures k in Polled(r, before[..j]).contexts {
        assert before[..j] == events[..j];
      }
      RecordedAsTold(r, before, i, k);
      if SaidLast(r, events, i, k, ToldState) {
        SaidBefore(r, events, i, k, ToldState);
      }
      if SaidLast(r, events, i, k, ToldRate) {
        SaidBefore(r, events, i, k, ToldRate);
      }
      if SaidLast(r, events, i, k, ToldMask) {
        SaidBefore(r, events, i, k, ToldMask);
      }
    }
  }

  /** The event introduces a context. */
  predicate Introduces(r: Registry, e: Event) {
    Applies(r, e, KeyOf(e)) && KeyOf(e) !in r.contexts
  }

  function Introduced(events: seq<Event>): nat {
    if events == [] then 0
    else
      var n := |events| - 1;
      Introduced(events[..n]) + if Introduces(Polled(EMPTY, events[..n]), events[n]) then 1 else 0
  }

  lemma GenerationNext(r: Registry, e: Event)
    ensures Handled(r, e).contextGeneration
         == if Introduces(r, e) then Successor(r.contextGeneration) else r.contextGeneration
    ensures Introduces(r, e) ==> Handled(r, e).newestCreatedSequence == e.sequence
  {
  }

  lemma SuccessorCounts(n: nat)
    ensures Successor(n % 0x1_0000_0000_0000_0000) == (n + 1) % 0x1_0000_0000_0000_0000
  {
  }

  /** The context generation counts the contexts introduced. */
  lemma {:induction false} GenerationCounts(events: seq<Event>)
    ensures Polled(EMPTY, events).contextGeneration == Introduced(events) % 0x1_0000_0000_0000_0000
  {
    if events != [] {
      var n := |events| - 1;
      GenerationCounts(events[..n]);
      hide Handled;
      hide Introduces;
      GenerationNext(Polled(EMPTY, events[..n]), events[n]);
      SuccessorCounts(Introduced(events[..n]));
    }
  }
}
