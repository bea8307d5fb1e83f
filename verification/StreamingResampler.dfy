/** The streaming form of `Resampling`: input kept in a ring, trimmed as it is consumed. */
module StreamingResampling {
  import opened Arithmetic
  import opened Resampling
  import opened Rings

  class StreamingResampler {
    var prepared: bool
    var filter: Filter
    var maxInput: nat
    var ring: array<Frame>
    var startSlot: nat
    var count: nat
    var startIndex: nat
    var totalInput: nat
    var nextNumerator: nat
    var failed: bool

    /** All input accepted and the number of frames emitted since the last reset. */
    ghost var history: seq<Frame>
    ghost var emitted: nat

    ghost predicate Valid()
      reads this, ring
    {
      prepared ==>
        && filter.Valid()
        && ring.Length == maxInput + TAP_COUNT * 2
        && startSlot < ring.Length && count <= ring.Length
        && totalInput == |history| == startIndex + count
        && (forall i | 0 <= i < |history| :: |history[i]| == filter.channels)
        && emitted <= filter.Ready(totalInput)
        && View(ring[..], startSlot, count) == history[startIndex..]
        && (!failed ==>
              && nextNumerator == emitted * filter.inputRate <= U64_MAX
              && startIndex <= KeepFrom(filter, emitted))
    }

    /** Nothing is left to emit and only the filter's own reach is still stored. */
    ghost predicate Steady()
      reads this, ring
    {
      && Valid() && prepared && !failed
      && emitted == filter.Ready(totalInput)
      && count <= TAP_COUNT
    }

    lemma SteadyIsReady()
      requires Steady()
      ensures Valid() && prepared && !failed && totalInput == |history| && emitted == filter.Ready(totalInput)
    {
    }

    lemma IsSized()
      requires Valid() && prepared
      ensures filter.Valid() && ring.Length == maxInput + TAP_COUNT * 2
    {
    }

    /** Input frames still stored once everything already consumed is discarded. */
    ghost function Retained(): nat
      reads this, ring
      requires Valid() && prepared && !failed
    {
      totalInput - Min(totalInput, Max(startIndex, KeepFrom(filter, emitted)))
    }

    /** Whether a call with `frames` input frames is taken, or refused and marked failed. */
    ghost predicate Accepts(frames: nat)
      reads this, ring
      requires Valid()
    {
      prepared && !failed && frames <= maxInput && frames <= ring.Length - Retained()
    }

    constructor ()
      ensures Valid() && !prepared && fresh(ring)
    {
      prepared, failed := false, false;
      filter := Filter(0, 0, 0, []);
      ring := new Frame[0];
      maxInput, startSlot, count, startIndex, totalInput, nextNumerator := 0, 0, 0, 0, 0, 0;
      history, emitted := [], 0;
    }

    method Prepare(inputRate: nat, outputRate: nat, channels: nat, maxInputFrames: nat, table: seq<real>)
      returns (ok: bool)
      requires |table| == PHASE_COUNT * TAP_COUNT
      modifies this
      ensures ok <==> 0 < inputRate && 0 < outputRate && 0 < channels <= MAX_CHANNELS
                      && 0 < maxInputFrames <= U64_MAX - TAP_COUNT * 2
      ensures ok ==> Steady() && fresh(ring) && history == [] && maxInput == maxInputFrames
                     && filter == Filter(inputRate, outputRate, channels, table)
      ensures !ok ==> unchanged(this)
    {
      if inputRate == 0 || outputRate == 0 || channels == 0
         || channels > MAX_CHANNELS || maxInputFrames == 0 {
        return false;
      }
      if maxInputFrames > U64_MAX - TAP_COUNT * 2 {
        return false;
      }
      ring := new Frame[maxInputFrames + TAP_COUNT * 2];
      filter := Filter(inputRate, outputRate, channels, table);
      maxInput := maxInputFrames;
      prepared := true;
      ok := true;
      Reset();
    }

    method Reset()
      requires prepared ==> filter.Valid() && ring.Length == maxInput + TAP_COUNT * 2
      modifies this`startSlot, this`count, this`startIndex, this`totalInput, this`nextNumerator,
               this`failed, this`history, this`emitted, ring
      ensures Valid() && history == [] && emitted == 0 && !failed
      ensures prepared ==> Steady()
    {
      hide Filter.Center;
      forall slot | 0 <= slot < ring.Length {
        ring[slot] := seq(filter.channels, _ => 0.0);
      }
      startSlot, count, startIndex, totalInput, nextNumerator := 0, 0, 0, 0, 0;
      failed := false;
      history, emitted := [], 0;
    }

    /**
      Consumes `input` and emits the next frames of the batch result, as many as are ready and fit.
      A resampler that keeps being drained never refuses and never fails before its source
      position leaves 64 bits.
    */
    method Process(input: seq<Frame>, outputCapacity: nat) returns (output: seq<Frame>)
      requires Valid()
      requires forall frame <- input :: |frame| == filter.channels
      modifies this`startSlot, this`count, this`startIndex, this`totalInput, this`nextNumerator,
               this`failed, this`history, this`emitted, ring
      ensures Valid() && |output| <= outputCapacity
      ensures if !old(Accepts(|input|)) then
                output == [] && history == old(history) && emitted == old(emitted) && failed == prepared
              else
                && history == old(history) + input
                && emitted == old(emitted) + |output| <= |filter.Resampled(history)|
                && output == filter.Resampled(history)[old(emitted)..emitted]
                && (failed ==> !WithinRange(filter, |history|))
                && (!failed && WithinRange(filter, |history|) ==>
                      |output| == Min(outputCapacity, filter.Ready(|history|) - old(emitted)))
      ensures old(Steady()) && |input| <= maxInput && outputCapacity >= MaxOutputFrames(filter, |input|)
              && WithinRange(filter, old(|history|) + |input|) ==>
                && Steady() && history == old(history) + input
                && filter.Resampled(history) == filter.Resampled(old(history)) + output
    {
      hide Filter.Ready;
      hide Filter.Resampled;
      hide KeepFrom;
      hide View;
      hide MaxOutputFrames;
      hide WithinRange;
      if Steady() {
        SteadyIsReady();
      }
      hide Steady;
      hide Retained;
      output := [];
      if !prepared || failed || |input| > maxInput {
        failed := prepared;
        return;
      }
      output := TakeAndEmit(input, outputCapacity);
      ResampledIsPrefix(filter, old(history), input);
      CapacitySuffices(filter, old(totalInput), |input|, outputCapacity);
    }

    /** `Process` once the call is known to be in order. */
    method TakeAndEmit(input: seq<Frame>, outputCapacity: nat) returns (output: seq<Frame>)
      requires Valid() && prepared && !failed && |input| <= maxInput
      requires forall frame <- input :: |frame| == filter.channels
      modifies this`startSlot, this`count, this`startIndex, this`totalInput, this`nextNumerator,
               this`failed, this`history, this`emitted, ring
      ensures Valid() && totalInput == |history| && |output| <= outputCapacity
      ensures old(Steady()) ==> |input| <= ring.Length - old(Retained())
      ensures if |input| > ring.Length - old(Retained()) then
                output == [] && history == old(history) && emitted == old(emitted) && failed
              else
                && history == old(history) + input
                && emitted == old(emitted) + |output| <= |filter.Resampled(history)|
                && output == filter.Resampled(history)[old(emitted)..emitted]
                && (failed ==> !WithinRange(filter, |history|))
                && (!failed && WithinRange(filter, |history|) ==>
                      |output| == Min(outputCapacity, filter.Ready(|history|) - old(emitted)))
      ensures !failed && emitted == filter.Ready(totalInput) ==> Steady()
    {
      hide Filter.Ready;
      hide Filter.Resampled;
      hide View;
      hide WithinRange;
      hide Steady;
      hide Retained;
      output := [];
      var taken := TakeInput(input);
      if taken {
        output := Emit(outputCapacity);
      }
    }

    /** First half of `Process`: make room, refuse what does not fit, store the rest. */
    method TakeInput(input: seq<Frame>) returns (taken: bool)
      requires Valid() && prepared && !failed
      requires forall frame <- input :: |frame| == filter.channels
      modifies this`startSlot, this`count, this`startIndex, this`totalInput, this`failed, this`history, ring
      ensures Valid() && taken == !failed
      ensures taken <==> |input| <= ring.Length - old(Retained())
      ensures history == if taken then old(history) + input else old(history)
      ensures old(Steady()) && |input| <= maxInput ==> taken
    {
      hide KeepFrom;
      hide View;
      KeptWhenDrained(filter, totalInput);
      hide Filter.Ready;
      DiscardConsumedInput();
      if |input| > ring.Length - count {
        failed := true;
        return false;
      }
      taken := true;
      StoreInput(input);
    }

    /** Second half of `Process`: emit what is ready, then trim the ring. */
    method Emit(outputCapacity: nat) returns (output: seq<Frame>)
      requires Valid() && prepared && !failed
      modifies this`startSlot, this`count, this`startIndex, this`nextNumerator, this`failed, this`emitted
      ensures Valid() && |output| <= outputCapacity
      ensures emitted == old(emitted) + |output| <= |filter.Resampled(history)|
      ensures output == filter.Resampled(history)[old(emitted)..emitted]
      ensures failed ==> !WithinRange(filter, |history|)
      ensures !failed && WithinRange(filter, |history|) ==>
                |output| == Min(outputCapacity, filter.Ready(|history|) - old(emitted))
      ensures !failed && emitted == filter.Ready(totalInput) ==> Steady()
    {
      hide KeepFrom;
      hide View;
      hide WithinRange;
      hide Filter.Resampled;
      KeptWhenDrained(filter, totalInput);
      hide Filter.Ready;
      output := EmitReady(outputCapacity);
      if !failed {
        DiscardConsumedInput();
      }
    }

    /** The ring-writing loop of `Process`. */
    method StoreInput(input: seq<Frame>)
      requires Valid() && prepared && !failed && |input| <= ring.Length - count
      requires forall frame <- input :: |frame| == filter.channels
      modifies this`count, this`totalInput, this`history, ring
      ensures Valid() && history == old(history) + input && count == old(count) + |input|
    {
      hide Filter.Ready;
      hide KeepFrom;
      hide View;
      ReadyMonotone(filter, |history|, |history + input|);
      WriteFrames(input);
      assert history[startIndex..] + input == (history + input)[startIndex..];
      count, totalInput := count + |input|, totalInput + |input|;
      history := history + input;
    }

    method WriteFrames(input: seq<Frame>)
      requires startSlot < ring.Length && count + |input| <= ring.Length
      modifies ring
      ensures View(ring[..], startSlot, count + |input|) == old(View(ring[..], startSlot, count)) + input
    {
      hide View;
      hide Slot;
      ghost var window := View(ring[..], startSlot, count);
      assert input[..0] == [];
      for frame := 0 to |input|
        invariant View(ring[..], startSlot, count + frame) == window + input[..frame]
      {
        Associate(window, input, frame);
        WriteFrame(count + frame, input[frame]);
      }
      assert input[..|input|] == input;
    }

    method WriteFrame(stored: nat, frame: Frame)
      requires startSlot < ring.Length && stored < ring.Length
      modifies ring
      ensures View(ring[..], startSlot, stored + 1) == old(View(ring[..], startSlot, stored)) + [frame]
    {
      hide View;
      hide Slot;
      ViewAppend(ring[..], startSlot, stored, frame);
      SlotIsModulo(startSlot, stored, ring.Length);
      ring[(startSlot + stored) % ring.Length] := frame;
    }

    lemma Associate(window: seq<Frame>, input: seq<Frame>, k: nat)
      requires k < |input|
      ensures window + input[..k] + [input[k]] == window + input[..k + 1]
    {
    }

    /** The output loop of `Process`. */
    method EmitReady(outputCapacity: nat) returns (output: seq<Frame>)
      requires Valid() && prepared && !failed
      modifies this`nextNumerator, this`failed, this`emitted
      ensures Valid() && |output| <= outputCapacity
      ensures emitted == old(emitted) + |output| <= |filter.Resampled(history)|
      ensures output == filter.Resampled(history)[old(emitted)..emitted]
      ensures failed ==> !WithinRange(filter, |history|)
      ensures !failed && WithinRange(filter, |history|) ==>
                |output| == Min(outputCapacity, filter.Ready(|history|) - old(emitted))
    {
      hide Filter.Ready;
      hide KeepFrom;
      hide View;
      output := [];
      ghost var all := filter.Resampled(history);
      while |output| < outputCapacity
        modifies this`nextNumerator, this`failed, this`emitted
        invariant Valid() && !failed && |output| <= outputCapacity
        invariant emitted == old(emitted) + |output| <= |all|
        invariant output == all[old(emitted)..emitted]
      {
        var center := nextNumerator / filter.outputRate;
        ReadyIff(filter, emitted, totalInput);
        if center > U64_MAX - RIGHT_TAPS {
          break;
        }
        if center + RIGHT_TAPS >= totalInput {
          break;
        }
        var frame := EmitFrame(center);
        assert all[old(emitted)..emitted] == output + [frame];
        output := output + [frame];
        if failed {
          return;
        }
      }
    }

    /** Computes the next output frame and moves the source position past it. */
    method EmitFrame(center: nat) returns (frame: Frame)
      requires Valid() && prepared && !failed && emitted < filter.Ready(totalInput)
      requires center == filter.Center(emitted) && center + RIGHT_TAPS < totalInput
      modifies this`nextNumerator, this`failed, this`emitted
      ensures Valid() && emitted == old(emitted) + 1 <= |filter.Resampled(history)|
      ensures frame == filter.Resampled(history)[old(emitted)]
      ensures failed ==> !WithinRange(filter, |history|)
    {
      hide View;
      hide KeepFrom;
      hide Filter.Ready;
      frame := FilterFrame(center);
      Advance(filter, emitted, filter.Ready(totalInput));
      emitted := emitted + 1;
      if nextNumerator > U64_MAX - filter.inputRate {
        failed := true;
        return;
      }
      nextNumerator := nextNumerator + filter.inputRate;
    }

    /** One output frame: every channel through the coefficient row of the current phase. */
    method FilterFrame(center: nat) returns (frame: Frame)
      requires Valid() && prepared && !failed
      requires center == filter.Center(emitted) && center + RIGHT_TAPS < totalInput
      ensures frame == filter.OutputFrame(history, emitted)
    {
      var remainder := nextNumerator % filter.outputRate;
      PhaseInTable(remainder, filter.outputRate);
      var phase := remainder * PHASE_COUNT / filter.outputRate;
      frame := [];
      for channel := 0 to filter.channels
        invariant |frame| == channel
        invariant forall c | 0 <= c < channel :: frame[c] == filter.Dot(history, emitted, c, TAP_COUNT)
      {
        var sum := FilterChannel(channel, center, phase);
        frame := frame + [sum];
      }
    }

    method FilterChannel(channel: nat, center: nat, phase: nat) returns (sum: real)
      requires Valid() && prepared && !failed && channel < filter.channels
      requires center == filter.Center(emitted) && center + RIGHT_TAPS < totalInput
      requires phase == filter.Phase(emitted)
      ensures sum == filter.Dot(history, emitted, channel, TAP_COUNT)
    {
      hide View;
      hide Filter.Ready;
      hide KeepFrom;
      hide InputSample;
      sum := 0.0;
      for tap := 0 to TAP_COUNT
        invariant sum == filter.Dot(history, emitted, channel, tap)
      {
        RowInTable(phase, tap);
        InputSampleIsHistory(channel, center + tap - LEFT_TAPS);
        sum := sum + InputSample(channel, center + tap - LEFT_TAPS) * filter.table[phase * TAP_COUNT + tap];
      }
    }

    method DiscardConsumedInput()
      requires Valid() && prepared && !failed
      modifies this`startSlot, this`count, this`startIndex
      ensures Valid() && count == old(Retained())
    {
      if filter.outputRate == 0 || count == 0 {
        return;
      }
      var nextCenter := nextNumerator / filter.outputRate;
      var keepFrom := if nextCenter > LEFT_TAPS + 1 then nextCenter - (LEFT_TAPS + 1) else 0;
      if keepFrom <= startIndex {
        return;
      }
      Trim(Min(keepFrom - startIndex, count));
    }

    method Trim(discard: nat)
      requires Valid() && prepared && !failed
      requires discard <= count && startIndex + discard <= KeepFrom(filter, emitted)
      modifies this`startSlot, this`count, this`startIndex
      ensures Valid() && count == old(count) - discard && startIndex == old(startIndex) + discard
    {
      hide View;
      hide Filter.Ready;
      hide KeepFrom;
      ViewDrop(ring[..], startSlot, count, discard);
      startSlot := (startSlot + discard) % ring.Length;
      startIndex := startIndex + discard;
      count := count - discard;
    }

    function InputSample(channel: nat, index: int): real
      requires Valid() && prepared
      reads this, ring
    {
      if index < 0 || channel >= filter.channels then 0.0
      else if index < startIndex || index >= startIndex + count then 0.0
      else
        SlotIsModulo(startSlot, index - startIndex, ring.Length);
        assert View(ring[..], startSlot, count)[index - startIndex] == history[index];
        ring[(startSlot + (index - startIndex)) % ring.Length][channel]
    }

    /** No tap of the frame being produced has been discarded from the ring. */
    lemma InputSampleIsHistory(channel: nat, index: int)
      requires Valid() && prepared && !failed && channel < filter.channels
      requires filter.Center(emitted) - LEFT_TAPS <= index < totalInput
      ensures InputSample(channel, index) == Sample(history, index, channel)
    {
      if index >= 0 {
        SlotIsModulo(startSlot, index - startIndex, ring.Length);
        assert View(ring[..], startSlot, count)[index - startIndex] == history[index];
      }
    }
  }

  function Max(a: nat, b: nat): nat {
    if a >= b then a else b
  }

  /** First input frame the filter may still need before emitting output frame `n`. */
  function KeepFrom(f: Filter, n: nat): nat
    requires f.Valid()
  {
    var center := f.Center(n);
    if center > LEFT_TAPS + 1 then center - (LEFT_TAPS + 1) else 0
  }

  /** An output capacity for `inputFrames` of input; saturates at 64 bits. */
  function MaxOutputFrames(f: Filter, inputFrames: nat): nat {
    if f.inputRate == 0 || f.outputRate == 0 then 0
    else if inputFrames > U64_MAX - TAP_COUNT * 2 then U64_MAX
    else
      var available := inputFrames + TAP_COUNT * 2;
      if available > U64_MAX / f.outputRate then U64_MAX
      else
        var result := available * f.outputRate / f.inputRate + 2;
        if result > U64_MAX then U64_MAX else result
  }

  lemma MaxOutputMonotone(f: Filter, a: nat, b: nat)
    requires f.Valid() && a <= b
    ensures MaxOutputFrames(f, a) <= MaxOutputFrames(f, b)
  {
    MulMonotone(a + TAP_COUNT * 2, b + TAP_COUNT * 2, f.outputRate);
    QuotientMonotone((a + TAP_COUNT * 2) * f.outputRate, (b + TAP_COUNT * 2) * f.outputRate, f.inputRate);
  }

  /** The 64-bit frame counter and source position stay in range over `total` input frames. */
  ghost predicate WithinRange(f: Filter, total: nat)
    requires f.Valid()
  {
    total <= U64_MAX && f.Ready(total) * f.inputRate <= U64_MAX
  }

  /** `MaxOutputFrames` suffices wherever in the stream the input arrives. */
  lemma CapacitySuffices(f: Filter, total: nat, frames: nat, capacity: nat)
    requires f.Valid()
    ensures WithinRange(f, total + frames) && capacity >= MaxOutputFrames(f, frames) ==>
              f.Ready(total + frames) - f.Ready(total) <= capacity
  {
    ReadyGrowth(f, total, frames);
    hide Filter.Ready;
    if WithinRange(f, total + frames) {
      MulMonotone(1, f.inputRate, f.Ready(total + frames));
    }
  }

  /** A drained resampler needs no more than the filter's reach of its input. */
  lemma KeptWhenDrained(f: Filter, total: nat)
    requires f.Valid()
    ensures total <= KeepFrom(f, f.Ready(total)) + TAP_COUNT
  {
    CenterWhenDrained(f, total);
  }

  /** Emitting output frame `n` moves the source position and the discard point forward. */
  lemma Advance(f: Filter, n: nat, ready: nat)
    requires f.Valid() && n < ready
    ensures (n + 1) * f.inputRate == n * f.inputRate + f.inputRate <= ready * f.inputRate
    ensures KeepFrom(f, n) <= KeepFrom(f, n + 1)
  {
    MulMonotone(n + 1, ready, f.inputRate);
    KeepFromMonotone(f, n);
  }

  lemma KeepFromMonotone(f: Filter, n: nat)
    requires f.Valid()
    ensures KeepFrom(f, n) <= KeepFrom(f, n + 1)
  {
    Distribute(n, 1, f.inputRate);
    QuotientMonotone(n * f.inputRate, (n + 1) * f.inputRate, f.outputRate);
  }

  lemma QuotientMonotone(a: nat, b: nat, k: nat)
    requires k > 0 && a <= b
    ensures a / k <= b / k
  {
    DivBelow(b, k, a / k);
    DivBelow(a, k, a / k);
  }
}
