/**
  The rational-rate streaming resampler: a 64-tap polyphase filter fed from a ring of
  recent input, and its batch meaning over the whole input history.
*/
module Resampling {
  import opened Arithmetic

  /** All channels of one sample time. Samples are reals. */
  type Frame = seq<real>

  const TAP_COUNT: nat := 64
  const PHASE_COUNT: nat := 1024
  const LEFT_TAPS: nat := 31
  const RIGHT_TAPS: nat := 32
  const MAX_CHANNELS: nat := 16
  const U64_MAX: nat := 0xFFFF_FFFF_FFFF_FFFF

  // ---------------------------------------------------------------- the batch meaning

  datatype Filter = Filter(inputRate: nat, outputRate: nat, channels: nat, table: seq<real>) {
    ghost predicate Valid() {
      && inputRate > 0 && outputRate > 0
      && |table| == PHASE_COUNT * TAP_COUNT
    }

    /** Input frame under the centre tap of output frame `n`. */
    function Center(n: nat): nat
      requires outputRate > 0
    {
      n * inputRate / outputRate
    }

    /** Row of the coefficient table used by output frame `n`. */
    function Phase(n: nat): (p: nat)
      requires outputRate > 0
      ensures p < PHASE_COUNT
    {
      PhaseInTable(n * inputRate % outputRate, outputRate);
      n * inputRate % outputRate * PHASE_COUNT / outputRate
    }

    /** Tap `tap` of output frame `n` reads this input frame; negative means before the start. */
    function TapIndex(n: nat, tap: nat): int
      requires outputRate > 0
    {
      Center(n) + tap - LEFT_TAPS
    }

    /** The first `taps` terms of the dot product for channel `c` of output frame `n`. */
    function Dot(h: seq<Frame>, n: nat, c: nat, taps: nat): real
      requires Valid() && taps <= TAP_COUNT
    {
      if taps == 0 then 0.0
      else
        Dot(h, n, c, taps - 1) + Sample(h, TapIndex(n, taps - 1), c) * Coefficient(n, taps - 1)
    }

    function Coefficient(n: nat, tap: nat): real
      requires Valid() && tap < TAP_COUNT
    {
      RowInTable(Phase(n), tap);
      table[Phase(n) * TAP_COUNT + tap]
    }

    function OutputFrame(h: seq<Frame>, n: nat): Frame
      requires Valid()
    {
      seq(channels, c requires 0 <= c < channels => Dot(h, n, c, TAP_COUNT))
    }

    /** How many output frames have all their taps once `total` input frames arrived. */
    function Ready(total: nat): nat
      requires Valid()
    {
      if total <= RIGHT_TAPS then 0 else CeilDiv((total - RIGHT_TAPS) * outputRate, inputRate)
    }

    /** Everything the resampler can say about the input history `h`. */
    function Resampled(h: seq<Frame>): (s: seq<Frame>)
      requires Valid()
      ensures |s| == Ready(|h|)
    {
      seq(Ready(|h|), n requires 0 <= n => OutputFrame(h, n))
    }
  }

  /** Channel `c` of input frame `i`; silence outside the history. */
  function Sample(h: seq<Frame>, i: int, c: nat): real {
    if 0 <= i < |h| && c < |h[i]| then h[i][c] else 0.0
  }

  /** Coefficient `k` of a table or an impulse response; nothing beyond its end. */
  function Tap(row: seq<real>, k: nat): real {
    if k < |row| then row[k] else 0.0
  }

  lemma PhaseInTable(remainder: nat, rate: nat)
    requires remainder < rate
    ensures remainder * PHASE_COUNT / rate < PHASE_COUNT
  {
    DivBelow(remainder * PHASE_COUNT, rate, PHASE_COUNT);
  }

  lemma RowInTable(row: nat, tap: nat)
    requires row < PHASE_COUNT && tap < TAP_COUNT
    ensures row * TAP_COUNT + tap < PHASE_COUNT * TAP_COUNT
  {
  }

  // ---------------------------------------------------------------- what an output frame is

  /** The phase is the 1024th of an input frame that the output frame lies past its centre, rounded down. */
  lemma PhaseIsFraction(f: Filter, n: nat)
    requires f.Valid()
    ensures f.Center(n) * f.outputRate <= n * f.inputRate < (f.Center(n) + 1) * f.outputRate
    ensures f.Phase(n) * f.outputRate
         <= (n * f.inputRate - f.Center(n) * f.outputRate) * PHASE_COUNT < (f.Phase(n) + 1) * f.outputRate
  {
    var position, rate := n * f.inputRate, f.outputRate;
    assert position == rate * (position / rate) + position % rate;
    var remainder := position % rate;
    assert remainder == position - f.Center(n) * rate;
    var scaled := remainder * PHASE_COUNT;
    assert scaled == rate * (scaled / rate) + scaled % rate;
  }

  /** The batch result has these frames, as many as are ready. */
  lemma ResampledIs(f: Filter, h: seq<Frame>, n: nat)
    requires f.Valid() && n < f.Ready(|h|)
    ensures f.Resampled(h)[n] == f.OutputFrame(h, n) && |f.OutputFrame(h, n)| == f.channels
  {
  }

  /** Output frame `n` is the dot product of 64 input frames around position `n * inputRate / outputRate` with one row of
      the table, chosen by the fraction. */
  lemma OutputIsDot(f: Filter, h: seq<Frame>, n: nat, c: nat)
    requires f.Valid() && c < f.channels
    ensures var center, phase := n * f.inputRate / f.outputRate, n * f.inputRate % f.outputRate * 1024 / f.outputRate;
            f.OutputFrame(h, n)[c]
            == Sum(64, (k: nat) => Sample(h, center + k - 31, c) * Tap(f.table, phase * 64 + k))
  {
    var center, phase := n * f.inputRate / f.outputRate, n * f.inputRate % f.outputRate * 1024 / f.outputRate;
    assert center == f.Center(n) && phase == f.Phase(n);
    DotIsSum(f, h, n, c, 64, (k: nat) => Sample(h, center + k - 31, c) * Tap(f.table, phase * 64 + k));
  }

  lemma {:induction false} DotIsSum(f: Filter, h: seq<Frame>, n: nat, c: nat, taps: nat, term: nat -> real)
    requires f.Valid() && taps <= TAP_COUNT
    requires forall k: nat | k < TAP_COUNT ::
               term(k) == Sample(h, f.Center(n) + k - 31, c) * Tap(f.table, f.Phase(n) * 64 + k)
    ensures f.Dot(h, n, c, taps) == Sum(taps, term)
  {
    if taps > 0 {
      DotNext(f, h, n, c, taps);
      hide Filter.Dot;
      DotIsSum(f, h, n, c, taps - 1, term);
    }
  }

  lemma DotNext(f: Filter, h: seq<Frame>, n: nat, c: nat, taps: nat)
    requires f.Valid() && 0 < taps <= TAP_COUNT
    ensures var k := taps - 1;
            f.Dot(h, n, c, taps)
            == f.Dot(h, n, c, k) + Sample(h, f.Center(n) + k - 31, c) * Tap(f.table, f.Phase(n) * 64 + k)
  {
    RowInTable(f.Phase(n), taps - 1);
    hide Filter.Phase;
    hide Filter.Center;
    hide Sample;
  }

  /** The table holds a single 1.0, in row `row` under tap `tap`. */
  ghost predicate IsImpulse(table: seq<real>, row: nat, tap: nat) {
    && |table| == 1024 * 64 && row < 1024 && tap < 64
    && forall i | 0 <= i < |table| :: table[i] == if i == row * 64 + tap then 1.0 else 0.0
  }

  lemma ImpulseTap(table: seq<real>, row: nat, tap: nat, phase: nat, k: nat)
    requires IsImpulse(table, row, tap) && phase < 1024 && k < 64
    ensures Tap(table, phase * 64 + k) == if phase == row && k == tap then 1.0 else 0.0
  {
  }

  /** Such a table lets exactly one input frame through, in the same channel, at the output frames of that fraction. */
  lemma ImpulsePicks(f: Filter, h: seq<Frame>, n: nat, c: nat, row: nat, tap: nat)
    requires f.Valid() && c < f.channels && IsImpulse(f.table, row, tap)
    requires forall i | 0 <= i < |h| :: |h[i]| == f.channels
    ensures var source := n * f.inputRate / f.outputRate + tap - 31;
            f.OutputFrame(h, n)[c]
            == if row == n * f.inputRate % f.outputRate * 1024 / f.outputRate && 0 <= source < |h| then h[source][c]
               else 0.0
  {
    var center, phase := n * f.inputRate / f.outputRate, n * f.inputRate % f.outputRate * 1024 / f.outputRate;
    hide *;
    CenterAndPhase(f, n);
    ImpulseAt(f, h, n, c, row, tap, center, phase);
  }

  lemma CenterAndPhase(f: Filter, n: nat)
    requires f.Valid()
    ensures f.Center(n) == n * f.inputRate / f.outputRate
    ensures f.Phase(n) == n * f.inputRate % f.outputRate * 1024 / f.outputRate < 1024
  {
  }

  lemma ImpulseAt(f: Filter, h: seq<Frame>, n: nat, c: nat, row: nat, tap: nat, center: nat, phase: nat)
    requires f.Valid() && c < f.channels && IsImpulse(f.table, row, tap)
    requires center == f.Center(n) && phase == f.Phase(n) < 1024
    requires forall i | 0 <= i < |h| :: |h[i]| == f.channels
    ensures f.OutputFrame(h, n)[c]
         == if row == phase && 0 <= center + tap - 31 < |h| then h[center + tap - 31][c] else 0.0
  {
    hide *;
    var term := (k: nat) => Sample(h, center + k - 31, c) * Tap(f.table, phase * 64 + k);
    forall k: nat | k < 64
      ensures term(k) == if phase == row && k == tap then Sample(h, center + tap - 31, c) else 0.0
    {
      ImpulseTap(f.table, row, tap, phase, k);
    }
    OutputIsTerms(f, h, n, c, term);
    ImpulseIsInRange(f.table, row, tap);
    SumOfOne(64, term, tap);
    SampleIs(h, center + tap - 31, c, f.channels);
  }

  lemma OutputIsTerms(f: Filter, h: seq<Frame>, n: nat, c: nat, term: nat -> real)
    requires f.Valid() && c < f.channels
    requires forall k: nat | k < TAP_COUNT ::
               term(k) == Sample(h, f.Center(n) + k - 31, c) * Tap(f.table, f.Phase(n) * 64 + k)
    ensures f.OutputFrame(h, n)[c] == Sum(64, term)
  {
    DotIsSum(f, h, n, c, 64, term);
  }

  lemma ImpulseIsInRange(table: seq<real>, row: nat, tap: nat)
    requires IsImpulse(table, row, tap)
    ensures tap < 64
  {
  }

  lemma SampleIs(h: seq<Frame>, i: int, c: nat, channels: nat)
    requires c < channels && forall j | 0 <= j < |h| :: |h[j]| == channels
    ensures Sample(h, i, c) == if 0 <= i < |h| then h[i][c] else 0.0
  {
  }

  // ---------------------------------------------------------------- how many output frames there are

  /** An output frame is ready exactly when its rightmost tap has arrived. */
  lemma ReadyIff(f: Filter, n: nat, total: nat)
    requires f.Valid()
    ensures n < f.Ready(total) <==> n * f.inputRate / f.outputRate + 32 < total
    ensures n < f.Ready(total) <==> f.Center(n) + RIGHT_TAPS < total
  {
    if total > RIGHT_TAPS {
      CeilDivAbove((total - RIGHT_TAPS) * f.outputRate, f.inputRate, n);
      DivBelow(n * f.inputRate, f.outputRate, total - RIGHT_TAPS);
    }
  }

  lemma ReadyMonotone(f: Filter, a: nat, b: nat)
    requires f.Valid() && a <= b
    ensures f.Ready(a) <= f.Ready(b)
  {
    if f.Ready(a) > 0 {
      ReadyIff(f, f.Ready(a) - 1, a);
      ReadyIff(f, f.Ready(a) - 1, b);
    }
  }

  /** A ready output frame does not change when more input arrives. */
  lemma {:induction false} DotIsStable(f: Filter, h: seq<Frame>, g: seq<Frame>, n: nat, c: nat, taps: nat)
    requires f.Valid() && taps <= TAP_COUNT
    requires f.Center(n) + RIGHT_TAPS < |h|
    ensures f.Dot(h + g, n, c, taps) == f.Dot(h, n, c, taps)
  {
    if taps > 0 {
      DotIsStable(f, h, g, n, c, taps - 1);
      assert f.TapIndex(n, taps - 1) < |h|;
    }
  }

  /** Resampling is causal: more input only appends output. */
  lemma ResampledIsPrefix(f: Filter, h: seq<Frame>, g: seq<Frame>)
    requires f.Valid()
    ensures f.Resampled(h) <= f.Resampled(h + g)
  {
    ReadyMonotone(f, |h|, |h + g|);
    forall n | 0 <= n < f.Ready(|h|)
      ensures f.Resampled(h)[n] == f.Resampled(h + g)[n]
    {
      ReadyIff(f, n, |h|);
      forall c | 0 <= c < f.channels
        ensures f.OutputFrame(h, n)[c] == f.OutputFrame(h + g, n)[c]
      {
        DotIsStable(f, h, g, n, c, TAP_COUNT);
      }
    }
  }

  /** Between equal rates, a table that passes on the centre tap resamples to the input itself, as far as it is ready. */
  lemma EqualRatesPass(f: Filter, h: seq<Frame>)
    requires f.Valid() && f.inputRate == f.outputRate && IsImpulse(f.table, 0, LEFT_TAPS)
    requires forall i | 0 <= i < |h| :: |h[i]| == f.channels
    ensures f.Ready(|h|) <= |h| && f.Resampled(h) == h[..f.Ready(|h|)]
    ensures f.Ready(|h|) == if |h| <= 32 then 0 else |h| - 32
  {
    ReadyAtEqualRates(f, |h|);
    hide Filter.Ready;
    forall n | 0 <= n < f.Ready(|h|)
      ensures f.Resampled(h)[n] == h[n]
    {
      ResampledIs(f, h, n);
      forall c | 0 <= c < f.channels
        ensures f.OutputFrame(h, n)[c] == h[n][c]
      {
        DivModUnique(n * f.inputRate, f.inputRate, n, 0);
        ImpulsePicks(f, h, n, c, 0, LEFT_TAPS);
      }
    }
  }

  lemma ReadyAtEqualRates(f: Filter, total: nat)
    requires f.Valid() && f.inputRate == f.outputRate
    ensures f.Ready(total) == if total <= 32 then 0 else total - 32
  {
    if total > 32 {
      var n, rate := total - 32, f.inputRate;
      DivModUnique(n * rate + rate - 1, rate, n, rate - 1);
    }
  }

  /** `Ready` inverts the rate ratio up to less than one output frame. */
  lemma ReadyBounds(f: Filter, total: nat)
    requires f.Valid()
    ensures (total - RIGHT_TAPS) * f.outputRate <= f.Ready(total) * f.inputRate
    ensures if total <= RIGHT_TAPS then f.Ready(total) == 0 else
              f.Ready(total) * f.inputRate < (total - RIGHT_TAPS) * f.outputRate + f.inputRate
  {
    if total > RIGHT_TAPS {
      CeilDivBounds((total - RIGHT_TAPS) * f.outputRate, f.inputRate);
    } else {
      assert (RIGHT_TAPS - total) * f.outputRate >= 0;
    }
  }

  /** One call never completes more frames than `MaxOutputFrames` promises. */
  lemma ReadyGrowth(f: Filter, total: nat, frames: nat)
    requires f.Valid()
    ensures f.Ready(total + frames) - f.Ready(total)
         <= (frames + TAP_COUNT * 2) * f.outputRate / f.inputRate + 2
  {
    hide Filter.Ready;
    var before, after := f.Ready(total), f.Ready(total + frames);
    ReadyBounds(f, total);
    ReadyBounds(f, total + frames);
    if after > before {
      Distribute(total - RIGHT_TAPS, frames, f.outputRate);
      Distribute(before, after - before - 1, f.inputRate);
      Distribute(after - 1, 1, f.inputRate);
      MulMonotone(frames, frames + TAP_COUNT * 2, f.outputRate);
      QuotientAtLeast((frames + TAP_COUNT * 2) * f.outputRate, f.inputRate, after - before - 1);
    }
  }

  lemma Distribute(a: int, b: int, k: int)
    ensures (a + b) * k == a * k + b * k
  {
  }

  lemma QuotientAtLeast(a: nat, b: nat, c: nat)
    requires b > 0 && c * b <= a
    ensures c <= a / b
  {
    DivBelow(a, b, c);
  }

  /** Where a drained resampler stands relative to the end of its input. */
  lemma CenterWhenDrained(f: Filter, total: nat)
    requires f.Valid()
    ensures total <= f.Center(f.Ready(total)) + RIGHT_TAPS
  {
    ReadyIff(f, f.Ready(total), total);
  }
}
