/** The granular encoder's pool of grains: who is free, who sounds, and for how long. */
module GrainPools {
  import opened Bytes

  const MAX_GRAINS: nat := 512

  /** How long the grain is and how much of it has been rendered. */
  datatype Grain = Grain(lengthSamples: U32, currentIndex: U32, active: bool)

  const SILENT := Grain(1, 0, false)

  function Started(lengthSamples: U32): Grain {
    Grain(if lengthSamples < 1 then 1 else lengthSamples, 0, true)
  }

  /** One sample is rendered. */
  function Rendered(g: Grain): Grain {
    if !g.active then g
    else if g.currentIndex >= g.lengthSamples then g.(active := false)
    else g.(currentIndex := g.currentIndex + 1, active := g.currentIndex + 1 < g.lengthSamples)
  }

  // ---------------------------------------------------------------- the pool

  ghost predicate Distinct(s: seq<nat>) {
    forall i, j | 0 <= i < j < |s| :: s[i] != s[j]
  }

  /** The free and the active list share out all grains, by whether they sound. */
  ghost predicate PoolOk(grains: seq<Grain>, free: seq<nat>, active: seq<nat>) {
    && |grains| == MAX_GRAINS && |free| + |active| == MAX_GRAINS
    && Distinct(free) && Distinct(active)
    && (forall g: nat | g < MAX_GRAINS :: g in active <==> grains[g].active)
    && (forall g: nat | g < MAX_GRAINS :: g in free <==> !grains[g].active)
    && (forall i | 0 <= i < |free| :: free[i] < MAX_GRAINS)
    && (forall i | 0 <= i < |active| :: active[i] < MAX_GRAINS)
    && (forall g | 0 <= g < MAX_GRAINS && grains[g].active :: grains[g].currentIndex < grains[g].lengthSamples)
  }

  /** The two lists together are a permutation of all grain numbers. */
  lemma ListsArePermutation(grains: seq<Grain>, free: seq<nat>, active: seq<nat>, g: nat)
    requires PoolOk(grains, free, active)
    ensures multiset(free + active)[g] == if g < MAX_GRAINS then 1 else 0
  {
    DistinctCount(free, g);
    DistinctCount(active, g);
  }

  lemma {:induction false} DistinctCount(s: seq<nat>, g: nat)
    requires Distinct(s)
    ensures multiset(s)[g] == if g in s then 1 else 0
  {
    if s != [] {
      var front, last := s[..|s| - 1], s[|s| - 1];
      DistinctCount(front, g);
      assert s == front + [last];
    }
  }

  lemma SpawnKeepsPool(grains: seq<Grain>, free: seq<nat>, active: seq<nat>, lengthSamples: U32)
    requires PoolOk(grains, free, active) && free != []
    ensures var g := free[|free| - 1];
            PoolOk(grains[g := Started(lengthSamples)], free[..|free| - 1], active + [g])
  {
    var n := |free| - 1;
    var g, rest, more := free[n], free[..n], active + [free[n]];
    assert free == rest + [g];
    assert g !in rest;
    assert !grains[g].active && g !in active;
  }

  /** Entry `a` is taken out and the last entry put in its place. */
  function SwappedOut(s: seq<nat>, a: nat): (t: seq<nat>)
    requires a < |s|
    ensures |t| == |s| - 1
  {
    s[a := s[|s| - 1]][..|s| - 1]
  }

  lemma SwappedOutMembers(s: seq<nat>, a: nat, x: nat)
    requires Distinct(s) && a < |s|
    ensures Distinct(SwappedOut(s, a))
    ensures x in SwappedOut(s, a) <==> x in s && x != s[a]
  {
    var t, n := SwappedOut(s, a), |s| - 1;
    if x in s && x != s[a] {
      var i :| 0 <= i < |s| && s[i] == x;
      assert t[if i == n then a else i] == x;
    }
  }

  /** A sounding grain goes on sounding. */
  lemma RenderKeepsPool(grains: seq<Grain>, free: seq<nat>, active: seq<nat>, g: nat, now: Grain)
    requires PoolOk(grains, free, active) && g in active
    requires now.active && now.currentIndex < now.lengthSamples
    ensures PoolOk(grains[g := now], free, active)
  {
  }

  /** Grain `active[a]` falls silent: it leaves the active list for the free list. */
  lemma RetireKeepsPool(grains: seq<Grain>, free: seq<nat>, active: seq<nat>, a: nat, now: Grain)
    requires PoolOk(grains, free, active) && a < |active| && !now.active
    ensures PoolOk(grains[active[a] := now], free + [active[a]], SwappedOut(active, a))
  {
    var g, rest := active[a], SwappedOut(active, a);
    forall x: nat
      ensures Distinct(rest) && (x in rest <==> x in active && x != g)
    {
      SwappedOutMembers(active, a, x);
    }
    hide SwappedOut;
    assert g !in free;
  }

  lemma PoolCounts(grains: seq<Grain>, free: seq<nat>, active: seq<nat>)
    requires PoolOk(grains, free, active)
    ensures |free| + |active| == |grains| == MAX_GRAINS
    ensures forall i | 0 <= i < |free| :: free[i] < MAX_GRAINS
    ensures forall i | 0 <= i < |active| :: active[i] < MAX_GRAINS && grains[active[i]].active
  {
  }

  // ---------------------------------------------------------------- frames

  function AllRendered(grains: seq<Grain>): (after: seq<Grain>)
    ensures |after| == |grains| && forall g | 0 <= g < |grains| :: after[g] == Rendered(grains[g])
  {
    seq(|grains|, g requires 0 <= g < |grains| => Rendered(grains[g]))
  }

  /** The grain on top of the free list starts; with no free grain nothing does. */
  function Spawned(grains: seq<Grain>, free: seq<nat>, lengthSamples: U32): seq<Grain>
    requires free != [] ==> free[|free| - 1] < |grains|
  {
    if free == [] then grains else grains[free[|free| - 1] := Started(lengthSamples)]
  }

  /** In one frame each grain renders once if it sounds, and a silent one may start and render its first sample. */
  ghost predicate IsFrame(before: seq<Grain>, after: seq<Grain>) {
    |before| == |after| && forall g | 0 <= g < |before| :: GrainStep(before[g], after[g])
  }

  ghost predicate GrainStep(before: Grain, after: Grain) {
    after == Rendered(before) || (!before.active && exists n: U32 :: after == Rendered(Started(n)))
  }

  lemma SpawnIsFrame(grains: seq<Grain>, free: seq<nat>, active: seq<nat>, lengthSamples: U32, due: bool)
    requires PoolOk(grains, free, active)
    ensures IsFrame(grains, AllRendered(if due then Spawned(grains, free, lengthSamples) else grains))
  {
    var after := AllRendered(if due then Spawned(grains, free, lengthSamples) else grains);
    forall g | 0 <= g < |grains|
      ensures GrainStep(grains[g], after[g])
    {
      if due && free != [] && g == free[|free| - 1] {
        assert after[g] == Rendered(Started(lengthSamples));
      }
    }
  }

  /** Grain `g` starts in the frame, and nothing else does. */
  ghost predicate StartsOnly(before: seq<Grain>, after: seq<Grain>, g: nat, lengthSamples: U32) {
    && |before| == |after| && g < |before| && !before[g].active && after[g] == Rendered(Started(lengthSamples))
    && forall h | 0 <= h < |before| && h != g :: after[h] == Rendered(before[h])
  }

  /** In a frame in which one is due, a silent grain starts if there is one. */
  ghost predicate IsDueFrame(before: seq<Grain>, after: seq<Grain>, due: bool, lengthSamples: U32) {
    if due && exists g | 0 <= g < |before| :: !before[g].active
      then exists g: nat :: StartsOnly(before, after, g, lengthSamples)
      else after == AllRendered(before)
  }

  lemma SpawnIsDueFrame(grains: seq<Grain>, free: seq<nat>, active: seq<nat>, lengthSamples: U32, due: bool)
    requires PoolOk(grains, free, active)
    ensures IsDueFrame(grains, AllRendered(if due then Spawned(grains, free, lengthSamples) else grains), due, lengthSamples)
  {
    var after := AllRendered(if due then Spawned(grains, free, lengthSamples) else grains);
    if due && free != [] {
      var g := free[|free| - 1];
      assert g in free;
      assert StartsOnly(grains, after, g, lengthSamples);
    } else if due {
      forall g | 0 <= g < |grains|
        ensures grains[g].active
      {
        assert g !in free;
      }
    }
  }

  /** When grains are due. */
  datatype Clock = Clock(counter: nat, delta: U32) {
    predicate IsDue() {
      counter >= delta
    }

    function Tick(nextDelta: U32): Clock {
      if IsDue() then Clock(0, nextDelta) else Clock(counter + 1, delta)
    }

    /** After `f` frames. */
    function At(deltas: seq<U32>, f: nat): Clock
      requires f <= |deltas|
    {
      if f == 0 then this else At(deltas, f - 1).Tick(deltas[f - 1])
    }

    /** A grain drawn with distance `d` is followed by the next after `d` frames between. */
    lemma {:induction false} NextIsDue(deltas: seq<U32>, f: nat, h: nat)
      requires f < h < |deltas| && At(deltas, f).IsDue() && h <= f + 1 + deltas[f]
      ensures At(deltas, h) == Clock(h - f - 1, deltas[f])
      ensures At(deltas, h).IsDue() <==> h == f + 1 + deltas[f]
    {
      if h > f + 1 {
        NextIsDue(deltas, f, h - 1);
      }
    }
  }

  /** A grain started for `n` samples, or for none and then for one, is rendered exactly so often: it sounds until then and
      is silent after. */
  lemma {:induction false} SoundsExactly(trace: seq<seq<Grain>>, start: nat, g: nat, n: U32, k: U32)
    requires 1 <= k && (k <= n || k == 1) && start + k < |trace|
    requires forall f | 0 <= f < |trace| - 1 :: IsFrame(trace[f], trace[f + 1])
    requires forall f | 0 <= f < |trace| :: g < |trace[f]|
    requires trace[start + 1][g] == Rendered(Started(n))
    ensures trace[start + k][g] == Grain(if n == 0 then 1 else n, k, k < n)
    decreases k
  {
    if k > 1 {
      SoundsExactly(trace, start, g, n, k - 1);
      var before := start + k - 1;
      assert IsFrame(trace[before], trace[before + 1]);
    }
  }

  // ---------------------------------------------------------------- the encoder's pool

  class GranularEncoder {
    const grains: array<Grain>
    const free: array<nat>
    const active: array<nat>
    var freeCount: nat
    var activeCount: nat
    var grainCounter: nat
    var deltaSamples: U32
    var poolExhaustionCount: nat

    ghost function SpawnClock(): Clock
      reads `grainCounter, `deltaSamples
    {
      Clock(grainCounter, deltaSamples)
    }

    ghost predicate Shaped()
      reads this
    {
      grains.Length == free.Length == active.Length == MAX_GRAINS && free != active
      && freeCount <= MAX_GRAINS && activeCount <= MAX_GRAINS
    }

    ghost function Grains(): seq<Grain>
      reads grains
    {
      grains[..]
    }

    ghost function Free(): seq<nat>
      reads this, free
      requires Shaped()
    {
      free[..freeCount]
    }

    ghost function Active(): seq<nat>
      reads this, active
      requires Shaped()
    {
      active[..activeCount]
    }

    ghost predicate Valid()
      reads this, grains, free, active
    {
      Shaped() && PoolOk(Grains(), Free(), Active())
    }

    constructor ()
      ensures Valid() && activeCount == 0 && fresh(grains) && fresh(free) && fresh(active)
    {
      grains := new Grain[MAX_GRAINS](_ => SILENT);
      free := new nat[MAX_GRAINS](i requires 0 <= i < MAX_GRAINS => MAX_GRAINS - i - 1);
      active := new nat[MAX_GRAINS](_ => 0);
      freeCount, activeCount, grainCounter, deltaSamples, poolExhaustionCount := MAX_GRAINS, 0, 0, 0, 0;
      new;
      AllFree(grains[..], free[..]);
    }

    method SpawnGrain(lengthSamples: U32) returns (spawned: bool)
      requires Valid()
      modifies `freeCount, `activeCount, grains, active
      ensures Valid() && spawned == (old(activeCount) < MAX_GRAINS)
      ensures Grains() == Spawned(old(Grains()), old(Free()), lengthSamples)
    {
      PoolCounts(Grains(), Free(), Active());
      if freeCount == 0 {
        return false;
      }
      SpawnKeepsPool(Grains(), Free(), Active(), lengthSamples);
      hide PoolOk;
      hide Started;
      freeCount := freeCount - 1;
      var index := free[freeCount];
      grains[index] := Started(lengthSamples);
      active[activeCount] := index;
      activeCount := activeCount + 1;
      assert Free() == old(Free())[..freeCount];
      assert Active() == old(Active()) + [index];
      assert Grains() == old(Grains())[index := Started(lengthSamples)];
      return true;
    }

    /** Renders grain `active[a]`; if that was its last sample it goes back to the free list. */
    method RenderOne(a: nat) returns (next: nat)
      requires Valid() && a < activeCount
      modifies `freeCount, `activeCount, grains, free, active
      ensures Valid()
      ensures var g := old(active[a]);
              Grains() == old(Grains())[g := Rendered(old(Grains())[g])]
      ensures Active() == if next == a then SwappedOut(old(Active()), a) else old(Active())
      ensures next == a || next == a + 1
    {
      var index := active[a];
      ghost var f, act := Free(), Active();
      assert act[a] == index;
      PoolCounts(Grains(), f, act);
      RenderedPool(Grains(), f, act, a);
      hide PoolOk;
      hide Rendered;
      var g := Rendered(grains[index]);
      grains[index] := g;
      assert Grains() == old(Grains())[index := g];
      if !g.active {
        free[freeCount] := index;
        freeCount := freeCount + 1;
        activeCount := activeCount - 1;
        active[a] := active[activeCount];
        assert Free() == f + [index];
        assert Active() == SwappedOut(act, a);
        next := a;
      } else {
        next := a + 1;
      }
    }

    /** The active-grain loop of one frame. */
    method RenderAll()
      requires Valid()
      modifies `freeCount, `activeCount, grains, free, active
      ensures Valid() && Grains() == AllRendered(old(Grains()))
    {
      var a: nat := 0;
      StartRendering(Grains(), Free(), Active());
      while a < activeCount
        invariant Valid() && a <= activeCount
        invariant RenderedBut(old(Grains()), Grains(), Active()[a..])
        decreases activeCount - a
      {
        a := RenderNext(a, old(Grains()));
      }
      assert Active()[a..] == [];
      PoolCounts(Grains(), Free(), Active());
      assert Grains() == AllRendered(old(Grains()));
    }

    method RenderNext(a: nat, ghost before: seq<Grain>) returns (next: nat)
      requires Valid() && a < activeCount && RenderedBut(before, Grains(), Active()[a..])
      modifies `freeCount, `activeCount, grains, free, active
      ensures Valid() && next <= activeCount && activeCount - next == old(activeCount) - a - 1
      ensures RenderedBut(before, Grains(), Active()[next..])
    {
      PoolCounts(Grains(), Free(), Active());
      ghost var grains0, active0 := Grains(), Active();
      RenderingGoesOn(before, Grains(), Free(), Active(), a);
      hide PoolOk;
      hide RenderedBut;
      next := RenderOne(a);
    }

    /** A grain may start, then all sounding grains render. */
    method ProcessFrame(nextDelta: U32, lengthSamples: U32)
      requires Valid()
      modifies this, grains, free, active
      ensures Valid()
      ensures var due := old(grainCounter >= deltaSamples);
              && Grains() == AllRendered(if due then Spawned(old(Grains()), old(Free()), lengthSamples)
                                         else old(Grains()))
              && grainCounter == (if due then 0 else old(grainCounter) + 1)
              && deltaSamples == (if due then nextDelta else old(deltaSamples))
              && poolExhaustionCount
              == old(poolExhaustionCount) + if due && old(activeCount) == MAX_GRAINS then 1 else 0
      ensures IsFrame(old(Grains()), Grains())
      ensures IsDueFrame(old(Grains()), Grains(), old(SpawnClock()).IsDue(), lengthSamples)
      ensures SpawnClock() == old(SpawnClock()).Tick(nextDelta)
    {
      ghost var due := grainCounter >= deltaSamples;
      SpawnIsDueFrame(Grains(), Free(), Active(), lengthSamples, due);
      SpawnIsFrame(Grains(), Free(), Active(), lengthSamples, due);
      hide PoolOk;
      hide IsFrame;
      hide IsDueFrame;
      hide Spawned;
      StartIfDue(nextDelta, lengthSamples);
      RenderAll();
    }

    method StartIfDue(nextDelta: U32, lengthSamples: U32)
      requires Valid()
      modifies this, grains, free, active
      ensures Valid()
      ensures var due := old(grainCounter >= deltaSamples);
              && Grains() == (if due then Spawned(old(Grains()), old(Free()), lengthSamples) else old(Grains()))
              && grainCounter == (if due then 0 else old(grainCounter) + 1)
              && deltaSamples == (if due then nextDelta else old(deltaSamples))
              && poolExhaustionCount
              == old(poolExhaustionCount) + if due && old(activeCount) == MAX_GRAINS then 1 else 0
    {
      PoolCounts(Grains(), Free(), Active());
      hide PoolOk;
      hide Spawned;
      if grainCounter >= deltaSamples {
        grainCounter := 0;
        deltaSamples := nextDelta;
        var spawned := SpawnGrain(lengthSamples);
        if !spawned {
          poolExhaustionCount := poolExhaustionCount + 1;
        }
      } else {
        grainCounter := grainCounter + 1;
      }
    }

    /** A block of frames; what the random numbers give for each is given. The trace is that of the whole block. */
    method Process(deltas: seq<U32>, lengths: seq<U32>) returns (ghost trace: seq<seq<Grain>>)
      requires Valid() && |deltas| == |lengths|
      modifies this, grains, free, active
      ensures Valid()
      ensures |trace| == |deltas| + 1 && trace[0] == old(Grains()) && trace[|deltas|] == Grains()
      ensures forall f | 0 <= f < |deltas| :: IsFrame(trace[f], trace[f + 1])
      ensures forall f | 0 <= f < |deltas| ::
                IsDueFrame(trace[f], trace[f + 1], old(SpawnClock()).At(deltas, f).IsDue(), lengths[f])
      ensures SpawnClock() == old(SpawnClock()).At(deltas, |deltas|)
    {
      hide PoolOk;
      hide IsFrame;
      hide IsDueFrame;
      trace := [Grains()];
      for f := 0 to |deltas|
        invariant Valid() && |trace| == f + 1 && trace[0] == old(Grains()) && trace[f] == Grains()
        invariant forall i | 0 <= i < f :: IsFrame(trace[i], trace[i + 1])
        invariant forall i | 0 <= i < f ::
                    IsDueFrame(trace[i], trace[i + 1], old(SpawnClock()).At(deltas, i).IsDue(), lengths[i])
        invariant SpawnClock() == old(SpawnClock()).At(deltas, f)
      {
        ProcessFrame(deltas[f], lengths[f]);
        trace := trace + [Grains()];
      }
    }

    method Reset()
      requires Shaped()
      modifies this, grains, free
      ensures Valid() && activeCount == 0
      ensures grainCounter == 0 && deltaSamples == 0 && poolExhaustionCount == 0
      ensures forall g | 0 <= g < MAX_GRAINS :: Grains()[g] == SILENT
    {
      for g := 0 to MAX_GRAINS
        invariant Shaped()
        invariant forall i | 0 <= i < g :: grains[i] == SILENT && free[i] == MAX_GRAINS - i - 1
      {
        grains[g] := SILENT;
        free[g] := MAX_GRAINS - g - 1;
      }
      freeCount, activeCount, grainCounter, deltaSamples, poolExhaustionCount := MAX_GRAINS, 0, 0, 0, 0;
      AllFree(grains[..], free[..]);
      assert Active() == [] && Free() == free[..];
    }
  }

  /** Grains are rendered once, but for those still to do. */
  ghost predicate RenderedBut(before: seq<Grain>, now: seq<Grain>, todo: seq<nat>) {
    |before| == |now| && forall g | 0 <= g < |now| :: now[g] == if g in todo then before[g] else Rendered(before[g])
  }

  lemma StartRendering(grains: seq<Grain>, free: seq<nat>, active: seq<nat>)
    requires PoolOk(grains, free, active)
    ensures RenderedBut(grains, grains, active[0..])
  {
    assert active[0..] == active;
  }

  lemma RenderingGoesOn(before: seq<Grain>, grains: seq<Grain>, free: seq<nat>, active: seq<nat>, a: nat)
    requires PoolOk(grains, free, active) && a < |active| && RenderedBut(before, grains, active[a..])
    ensures var g := active[a];
            var now := grains[g := Rendered(grains[g])];
            RenderedBut(before, now, SwappedOut(active, a)[a..]) && RenderedBut(before, now, active[a + 1..])
  {
    forall x: nat
      ensures x in SwappedOut(active, a)[a..] <==> x in active[a..] && x != active[a]
      ensures x in active[a + 1..] <==> x in active[a..] && x != active[a]
    {
      TodoNext(active, a, x);
    }
    assert active[a..][0] == active[a];
    hide SwappedOut;
    hide Rendered;
  }

  lemma TodoNext(s: seq<nat>, a: nat, x: nat)
    requires Distinct(s) && a < |s|
    ensures x in SwappedOut(s, a)[a..] <==> x in s[a..] && x != s[a]
    ensures x in s[a + 1..] <==> x in s[a..] && x != s[a]
  {
    var t, n := SwappedOut(s, a), |s| - 1;
    if x in s[a..] && x != s[a] {
      var i :| a <= i < |s| && s[i] == x;
      assert i > a;
      assert s[a + 1..][i - a - 1] == x;
      var j := if i == n then a else i;
      assert t[a..][j - a] == x;
    }
    if x in s[a + 1..] {
      var i :| a < i < |s| && s[i] == x;
      assert s[a..][i - a] == x;
    }
    if x in t[a..] {
      var i :| a <= i < |t| && t[i] == x;
      assert s[a..][(if i == a then n else i) - a] == x;
    }
  }

  lemma RenderedPool(grains: seq<Grain>, free: seq<nat>, active: seq<nat>, a: nat)
    requires PoolOk(grains, free, active) && a < |active|
    ensures var g := active[a];
            var now := Rendered(grains[g]);
            if now.active then PoolOk(grains[g := now], free, active)
            else PoolOk(grains[g := now], free + [g], SwappedOut(active, a))
  {
    PoolCounts(grains, free, active);
    var now := Rendered(grains[active[a]]);
    if now.active {
      RenderKeepsPool(grains, free, active, active[a], now);
    } else {
      RetireKeepsPool(grains, free, active, a, now);
    }
  }

  lemma AllFree(grains: seq<Grain>, free: seq<nat>)
    requires |grains| == |free| == MAX_GRAINS
    requires forall i | 0 <= i < MAX_GRAINS :: grains[i] == SILENT && free[i] == MAX_GRAINS - i - 1
    ensures PoolOk(grains, free, [])
  {
    forall g: nat | g < MAX_GRAINS
      ensures g in free
    {
      assert free[MAX_GRAINS - g - 1] == g;
    }
  }
}
