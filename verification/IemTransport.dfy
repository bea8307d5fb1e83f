/**
  What the IEM engine emits for a whole host stream: resample to 96 kHz, run the pipeline on
  256-frame blocks, resample back, delay by the transport latency, and mix with the dry signal.
  The rate arithmetic that keeps the output queue from running dry is proved here.
*/
module IemTransport {
  import opened Arithmetic
  import opened Resampling
  import opened BlockScheduling
  import opened StreamingResampling

  const INTERNAL_RATE: nat := 96000
  const MIN_HOST_RATE: nat := 8000
  const MAX_HOST_RATE: nat := 384000
  const STEREO: nat := 2

  // ---------------------------------------------------------------- the pipeline

  datatype PipeResult<+S> = PipeResult(ok: bool, state: S, block: seq<Frame>)

  /** A deterministic transducer of 256-frame stereo blocks; parameters are part of its state. */
  datatype Pipeline<!S(!new)> = Pipeline(
    initial: S, latency: nat, reset: S -> S, step: (S, seq<Frame>) -> PipeResult<S>) {
    ghost predicate Lawful() {
      forall s: S, block: seq<Frame> {:trigger step(s, block)} ::
        IsStereo(block) && |block| == BLOCK_FRAMES ==>
          IsStereo(step(s, block).block) && |step(s, block).block| == BLOCK_FRAMES
    }

    /** The first `n` blocks of `internal`, started in state `s`. */
    function Run(s: S, internal: seq<Frame>, n: nat): (r: PipeResult<S>)
      requires n * BLOCK_FRAMES <= |internal|
    {
      if n == 0 then PipeResult(true, s, [])
      else
        var before := Run(s, internal, n - 1);
        var next := step(before.state, internal[(n - 1) * BLOCK_FRAMES..n * BLOCK_FRAMES]);
        PipeResult(before.ok && next.ok, next.state, before.block + next.block)
    }

    lemma {:induction false} RunShape(s: S, internal: seq<Frame>, n: nat)
      requires Lawful() && IsStereo(internal) && n * BLOCK_FRAMES <= |internal|
      ensures |Run(s, internal, n).block| == n * BLOCK_FRAMES && IsStereo(Run(s, internal, n).block)
    {
      if n > 0 {
        RunShape(s, internal, n - 1);
        assert IsStereo(internal[(n - 1) * BLOCK_FRAMES..n * BLOCK_FRAMES]);
      }
    }

    /** Each block goes through the pipeline in the state that the one before left behind. */
    lemma {:induction false} RunThreads(s: S, internal: seq<Frame>, n: nat, states: seq<S>)
      requires Lawful() && IsStereo(internal) && n * BLOCK_FRAMES <= |internal|
      requires |states| == n + 1 && states[0] == s
      requires forall i: nat | i < n :: states[i + 1] == step(states[i], Block(internal, i)).state
      ensures Run(s, internal, n).state == states[n]
      ensures |Run(s, internal, n).block| == n * BLOCK_FRAMES
      ensures forall i: nat | i < n :: Block(Run(s, internal, n).block, i) == step(states[i], Block(internal, i)).block
      ensures Run(s, internal, n).ok <==> forall i: nat | i < n :: step(states[i], Block(internal, i)).ok
    {
      RunShape(s, internal, n);
      if n > 0 {
        RunShape(s, internal, n - 1);
        RunThreads(s, internal, n - 1, states[..n]);
        var before, all := Run(s, internal, n - 1).block, Run(s, internal, n).block;
        assert Block(internal, n - 1) == internal[(n - 1) * BLOCK_FRAMES..n * BLOCK_FRAMES];
        hide Block;
        forall i: nat | i < n
          ensures Block(all, i) == step(states[i], Block(internal, i)).block
        {
          BlocksJoin(before, step(states[n - 1], Block(internal, n - 1)).block, n - 1, i);
        }
      }
    }

    lemma {:induction false} RunIdentity(s: S, internal: seq<Frame>, n: nat)
      requires n * BLOCK_FRAMES <= |internal|
      requires forall s: S, block: seq<Frame> {:trigger step(s, block)} :: step(s, block).block == block
      ensures Run(s, internal, n).block == internal[..n * BLOCK_FRAMES]
    {
      if n > 0 {
        RunIdentity(s, internal, n - 1);
        assert internal[..(n - 1) * BLOCK_FRAMES] + internal[(n - 1) * BLOCK_FRAMES..n * BLOCK_FRAMES]
            == internal[..n * BLOCK_FRAMES];
      }
    }

    /** A block already processed does not depend on what follows it. */
    lemma {:induction false} RunIsStable(s: S, internal: seq<Frame>, more: seq<Frame>, n: nat)
      requires n * BLOCK_FRAMES <= |internal|
      ensures Run(s, internal + more, n) == Run(s, internal, n)
    {
      if n > 0 {
        RunIsStable(s, internal, more, n - 1);
        assert (internal + more)[(n - 1) * BLOCK_FRAMES..n * BLOCK_FRAMES]
            == internal[(n - 1) * BLOCK_FRAMES..n * BLOCK_FRAMES];
      }
    }

    /** Running further can only add output, and cannot undo a failure. */
    lemma {:induction false} RunGrows(s: S, internal: seq<Frame>, m: nat, n: nat)
      requires m <= n && n * BLOCK_FRAMES <= |internal|
      ensures Run(s, internal, m).block <= Run(s, internal, n).block
      ensures Run(s, internal, n).ok ==> Run(s, internal, m).ok
    {
      if m < n {
        RunGrows(s, internal, m, n - 1);
      }
    }
  }

  /** Block `i` of a stream. */
  function Block(stream: seq<Frame>, i: nat): seq<Frame> {
    if (i + 1) * BLOCK_FRAMES <= |stream| then stream[i * BLOCK_FRAMES..(i + 1) * BLOCK_FRAMES] else []
  }

  lemma BlocksJoin(before: seq<Frame>, last: seq<Frame>, n: nat, i: nat)
    requires |before| == n * BLOCK_FRAMES && |last| == BLOCK_FRAMES && i <= n
    ensures Block(before + last, i) == if i < n then Block(before, i) else last
  {
  }

  ghost predicate IsStereo(stream: seq<Frame>) {
    forall i | 0 <= i < |stream| :: |stream[i]| == STEREO
  }

  function Joined<T>(parts: seq<seq<T>>): seq<T> {
    if parts == [] then [] else Joined(parts[..|parts| - 1]) + parts[|parts| - 1]
  }

  ghost predicate AllStereo(parts: seq<seq<Frame>>) {
    forall i | 0 <= i < |parts| :: IsStereo(parts[i])
  }

  lemma {:induction false} StereoJoined(parts: seq<seq<Frame>>)
    requires AllStereo(parts)
    ensures IsStereo(Joined(parts))
  {
    if parts != [] {
      StereoJoined(parts[..|parts| - 1]);
      assert IsStereo(parts[|parts| - 1]);
    }
  }

  // ---------------------------------------------------------------- the whole stream

  /** What was in force when parameters last changed: output so far, pipeline state, dry/wet ramp. */
  datatype Origin<+S> = Origin(prefix: seq<Frame>, state: S, frame: nat, mix: real, target: real)

  datatype Transport<!S(!new)> = Transport(up: Filter, down: Filter, pipeline: Pipeline<S>) {
    ghost predicate Valid() {
      && up.Valid() && down.Valid() && pipeline.Lawful()
      && up.outputRate == down.inputRate == INTERNAL_RATE
      && up.inputRate == down.outputRate && MIN_HOST_RATE <= up.inputRate <= MAX_HOST_RATE
      && up.channels == down.channels == STEREO
    }

    function TransportLatency(): nat
      requires Valid()
    {
      RIGHT_TAPS + CeilDiv((BLOCK_FRAMES + RIGHT_TAPS) * up.inputRate, INTERNAL_RATE) + 4
    }

    function Latency(): nat
      requires Valid()
    {
      TransportLatency() + CeilDiv(pipeline.latency * up.inputRate, INTERNAL_RATE)
    }

    ghost predicate Covers(o: Origin<S>, host: seq<Frame>)
      requires Valid()
    {
      && IsStereo(host) && IsStereo(o.prefix)
      && |o.prefix| % BLOCK_FRAMES == 0 && |o.prefix| <= |up.Resampled(host)|
      && o.frame <= |host|
    }

    function NewBlocks(o: Origin<S>, internal: seq<Frame>): (n: nat)
      requires |o.prefix| <= |internal|
      ensures n * BLOCK_FRAMES <= |internal| - |o.prefix| < (n + 1) * BLOCK_FRAMES
    {
      (|internal| - |o.prefix|) / BLOCK_FRAMES
    }

    /** The pipeline's whole output after `n` blocks of `internal` beyond the origin. */
    function PipedBlocks(o: Origin<S>, internal: seq<Frame>, n: nat): PipeResult<S>
      requires |o.prefix| + n * BLOCK_FRAMES <= |internal|
    {
      var r := pipeline.Run(o.state, internal[|o.prefix|..], n);
      r.(block := o.prefix + r.block)
    }

    /** Everything the pipeline emits once the host stream `host` has arrived. */
    function Piped(o: Origin<S>, host: seq<Frame>): PipeResult<S>
      requires up.Valid() && |o.prefix| <= |up.Resampled(host)|
    {
      PipedBlocks(o, up.Resampled(host), NewBlocks(o, up.Resampled(host)))
    }

    /** The wet stream at host rate. */
    function Wet(o: Origin<S>, host: seq<Frame>): seq<Frame>
      requires up.Valid() && down.Valid() && |o.prefix| <= |up.Resampled(host)|
    {
      down.Resampled(Piped(o, host).block)
    }

    /** Dry/wet mix after `t` host frames; it moves only from the total latency on. */
    function MixAt(o: Origin<S>, t: nat): real
      requires Valid()
    {
      if t <= o.frame then o.mix
      else if t - 1 >= Latency() then Ramp(MixAt(o, t - 1), o.target)
      else MixAt(o, t - 1)
    }

    /** Host frame `t` of the engine's output. */
    function Output(o: Origin<S>, host: seq<Frame>, t: nat): Frame
      requires Valid() && Covers(o, host) && t < |host|
    {
      var mix := MixAt(o, t + 1);
      [Blend(host[t][0], Sample(Wet(o, host), t - TransportLatency(), 0), mix),
       Blend(host[t][1], Sample(Wet(o, host), t - TransportLatency(), 1), mix)]
    }

    // -------------------------------------------------------------- causality

    lemma PipedShape(o: Origin<S>, host: seq<Frame>)
      requires Valid() && Covers(o, host)
      ensures var internal := |up.Resampled(host)|;
              |Piped(o, host).block| == internal - internal % BLOCK_FRAMES
      ensures IsStereo(Piped(o, host).block)
    {
      var internal := up.Resampled(host);
      var n := NewBlocks(o, internal);
      assert IsStereo(internal[|o.prefix|..]);
      pipeline.RunShape(o.state, internal[|o.prefix|..], n);
      DivModUnique(|internal|, BLOCK_FRAMES, |o.prefix| / BLOCK_FRAMES + n, |internal| - |o.prefix| - n * BLOCK_FRAMES);
    }

    /** More host input only appends to the wet stream. */
    lemma WetIsPrefix(o: Origin<S>, host: seq<Frame>, more: seq<Frame>)
      requires Valid() && Covers(o, host)
      ensures up.Resampled(host) <= up.Resampled(host + more)
      ensures Piped(o, host).block <= Piped(o, host + more).block
      ensures Wet(o, host) <= Wet(o, host + more)
    {
      ResampledIsPrefix(up, host, more);
      var internal, longer := up.Resampled(host), up.Resampled(host + more);
      var n, m := NewBlocks(o, internal), NewBlocks(o, longer);
      var from := |o.prefix|;
      assert longer[from..] == internal[from..] + longer[|internal|..];
      pipeline.RunIsStable(o.state, internal[from..], longer[|internal|..], n);
      pipeline.RunGrows(o.state, longer[from..], n, m);
      var piped, further := Piped(o, host).block, Piped(o, host + more).block;
      assert piped <= further;
      assert further == piped + further[|piped|..];
      ResampledIsPrefix(down, piped, further[|piped|..]);
    }

    /** An emitted frame never depends on host frames that arrive later. */
    lemma OutputIsCausal(o: Origin<S>, host: seq<Frame>, more: seq<Frame>, t: nat)
      requires Valid() && Covers(o, host) && t < |host| && IsStereo(more)
      ensures Covers(o, host + more)
      ensures Output(o, host + more, t) == Output(o, host, t)
    {
      WetIsPrefix(o, host, more);
      NeverDry(o, host);
    }

    /** The output for the part of the host stream from frame `from` on. */
    function Emitted(o: Origin<S>, host: seq<Frame>, from: nat): seq<Frame>
      requires Valid() && Covers(o, host) && from <= |host|
    {
      seq(|host| - from, k requires 0 <= k < |host| - from => Output(o, host, from + k))
    }

    lemma CoversGrows(o: Origin<S>, host: seq<Frame>, more: seq<Frame>)
      requires Valid() && Covers(o, host) && IsStereo(more)
      ensures Covers(o, host + more)
    {
      ResampledIsPrefix(up, host, more);
    }

    /** What a sequence of calls hands back, one call's block after another, starting behind `before`. */
    function Calls(o: Origin<S>, before: seq<Frame>, calls: seq<seq<Frame>>): seq<Frame>
      requires Valid() && Covers(o, before) && AllStereo(calls)
    {
      if calls == [] then []
      else
        var last := |calls| - 1;
        StereoJoined(calls);
        StereoJoined(calls[..last]);
        CoversGrows(o, before, Joined(calls));
        Calls(o, before, calls[..last]) + Emitted(o, before + Joined(calls), |before + Joined(calls[..last])|)
    }

    /** However the host cuts its stream into calls, the concatenated output is the same. */
    lemma {:induction false} CallsIgnoreBoundaries(o: Origin<S>, before: seq<Frame>, calls: seq<seq<Frame>>)
      requires Valid() && Covers(o, before) && AllStereo(calls)
      ensures Covers(o, before + Joined(calls))
      ensures Calls(o, before, calls) == Emitted(o, before + Joined(calls), |before|)
    {
      hide Transport.Output;
      hide Transport.Covers;
      StereoJoined(calls);
      CoversGrows(o, before, Joined(calls));
      if calls != [] {
        var last := |calls| - 1;
        StereoJoined(calls[..last]);
        CallsIgnoreBoundaries(o, before, calls[..last]);
        EmittedExtends(o, before + Joined(calls[..last]), calls[last], |before|);
        assert before + Joined(calls) == before + Joined(calls[..last]) + calls[last];
      }
    }

    /** More input keeps what was emitted and only adds to it. */
    lemma EmittedExtends(o: Origin<S>, host: seq<Frame>, more: seq<Frame>, from: nat)
      requires Valid() && Covers(o, host) && IsStereo(more) && from <= |host|
      ensures Covers(o, host + more)
      ensures Emitted(o, host + more, from) == Emitted(o, host, from) + Emitted(o, host + more, |host|)
    {
      hide Transport.Output;
      hide Transport.Covers;
      CoversGrows(o, host, more);
      var before, after := Emitted(o, host, from), Emitted(o, host + more, from);
      forall k | 0 <= k < |before|
        ensures after[k] == before[k]
      {
        OutputIsCausal(o, host, more, from + k);
      }
    }

    /** The fade is a straight line in the absolute frame number, 256 steps from dry to wet. */
    lemma {:induction false} RampIsLinear(o: Origin<S>, t: nat)
      requires Valid() && o.mix <= o.target && o.frame <= t
      ensures var start := if o.frame < Latency() then Latency() else o.frame;
              MixAt(o, t) == if t <= start then o.mix
                             else if o.mix + (t - start) as real / 256.0 < o.target
                             then o.mix + (t - start) as real / 256.0 else o.target
    {
      if o.frame < t {
        RampIsLinear(o, t - 1);
      }
    }

    /** The latencies: the taps of both resamplers, one block and the slack, and the pipeline's own on top, each at the
        host rate and rounded up. */
    lemma LatencyIs()
      requires Valid()
      ensures var rate, block, own := up.inputRate, TransportLatency() - 36, Latency() - TransportLatency();
              && (block - 1) * 96000 < 288 * rate <= block * 96000
              && (own - 1) * 96000 < pipeline.latency * rate <= own * 96000
    {
      CeilDivBounds(288 * up.inputRate, INTERNAL_RATE);
      CeilDivBounds(pipeline.latency * up.inputRate, INTERNAL_RATE);
    }

    /** The first frames of a stream. Started with the effect off, it hands back the input itself until the full latency
        has passed; started with it on, it is silent until the transport latency has passed. */
    lemma FirstFrames(o: Origin<S>, host: seq<Frame>, t: nat)
      requires Valid() && Covers(o, host) && t < |host| && o.frame == 0 && o.mix <= o.target
      ensures o.mix == 0.0 && t < Latency() ==>
                forall c | 0 <= c < STEREO :: Output(o, host, t)[c] == host[t][c]
      ensures o.mix == 1.0 && t < TransportLatency() ==>
                forall c | 0 <= c < STEREO :: Output(o, host, t)[c] == 0.0
    {
      assert TransportLatency() <= Latency();
      if t < Latency() {
        RampIsLinear(o, t + 1);
        hide Transport.MixAt;
        hide Transport.Wet;
        hide Transport.Covers;
        assert MixAt(o, t + 1) == o.mix;
      }
    }

    /** Fading out is the same line downwards. */
    lemma {:induction false} FadeIsLinear(o: Origin<S>, t: nat)
      requires Valid() && o.target <= o.mix && o.frame <= t
      ensures var start := if o.frame < Latency() then Latency() else o.frame;
              MixAt(o, t) == if t <= start then o.mix
                             else if o.target < o.mix - (t - start) as real / 256.0
                             then o.mix - (t - start) as real / 256.0 else o.target
    {
      if o.frame < t {
        FadeIsLinear(o, t - 1);
      }
    }

    // -------------------------------------------------------------- what comes out

    /** Channel `c` of the processed signal that goes with host frame `t`: the wet stream, late by the transport latency. */
    ghost function Processed(o: Origin<S>, host: seq<Frame>, t: nat, c: nat): real
      requires Valid() && Covers(o, host) && t < |host| && c < STEREO
    {
      WetIsThere(o, host, t);
      if t < TransportLatency() then 0.0 else Wet(o, host)[t - TransportLatency()][c]
    }

    lemma WetIsThere(o: Origin<S>, host: seq<Frame>, t: nat)
      requires Valid() && Covers(o, host) && t < |host|
      ensures t >= TransportLatency() ==>
                t - TransportLatency() < |Wet(o, host)| && |Wet(o, host)[t - TransportLatency()]| == STEREO
    {
      hide Filter.Ready;
      NeverDry(o, host);
      if t >= TransportLatency() {
        ResampledIs(down, Piped(o, host).block, t - TransportLatency());
      }
    }

    /** Each channel moves from the input towards the processed signal of the same channel by the share `MixAt`; past the
        transport latency, and with the mix all the way up, the output is the wet stream. */
    lemma OutputIsMix(o: Origin<S>, host: seq<Frame>, t: nat, c: nat)
      requires Valid() && Covers(o, host) && t < |host| && c < STEREO
      ensures |Output(o, host, t)| == STEREO
      ensures Output(o, host, t)[c] - host[t][c] == MixAt(o, t + 1) * (Processed(o, host, t, c) - host[t][c])
      ensures MixAt(o, t + 1) == 1.0 && TransportLatency() <= t ==>
                && t - TransportLatency() < |Wet(o, host)| && |Wet(o, host)[t - TransportLatency()]| == STEREO
                && Output(o, host, t)[c] == Wet(o, host)[t - TransportLatency()][c]
    {
      OutputIsBlend(o, host, t, c);
      WetIsThere(o, host, t);
      hide Transport.Output;
      hide Transport.MixAt;
      hide Transport.Wet;
      hide Transport.Covers;
      BlendMoves(host[t][c], Processed(o, host, t, c), MixAt(o, t + 1));
      hide Blend;
    }

    lemma OutputIsBlend(o: Origin<S>, host: seq<Frame>, t: nat, c: nat)
      requires Valid() && Covers(o, host) && t < |host| && c < STEREO
      ensures |Output(o, host, t)| == |host[t]| == STEREO
      ensures Output(o, host, t)[c] == Blend(host[t][c], Processed(o, host, t, c), MixAt(o, t + 1))
    {
      WetIsThere(o, host, t);
      hide Transport.MixAt;
      hide Transport.Wet;
      hide Blend;
    }

    /** Once all the way up, the mix stays there. */
    lemma {:induction false} MixStaysUp(o: Origin<S>, from: nat, t: nat)
      requires Valid() && from <= t && MixAt(o, from) == 1.0 == o.target
      ensures MixAt(o, t) == 1.0
    {
      if from < t {
        MixStaysUp(o, from, t - 1);
      }
    }

    /** At the internal rate, with tables that pass on the centre tap and a pipeline that changes nothing, the output with
        the mix all the way up is the input, each channel by itself, exactly 324 frames late. */
    lemma IdentityDelays(o: Origin<S>, host: seq<Frame>, t: nat, c: nat)
      requires Valid() && Covers(o, host) && up.inputRate == 96000 && o.prefix == []
      requires IsImpulse(up.table, 0, LEFT_TAPS) && IsImpulse(down.table, 0, LEFT_TAPS)
      requires forall s: S, block: seq<Frame> {:trigger pipeline.step(s, block)} :: pipeline.step(s, block).block == block
      requires TransportLatency() <= t < |host| && c < STEREO && MixAt(o, t + 1) == 1.0
      ensures TransportLatency() == 324
      ensures |Output(o, host, t)| == STEREO && Output(o, host, t)[c] == host[t - 324][c]
    {
      OutputIsMix(o, host, t, c);
      IdentityWet(o, host);
      hide Transport.Output;
      hide Transport.Wet;
      hide Transport.MixAt;
    }

    lemma IdentityWet(o: Origin<S>, host: seq<Frame>)
      requires Valid() && Covers(o, host) && up.inputRate == 96000 && o.prefix == []
      requires IsImpulse(up.table, 0, LEFT_TAPS) && IsImpulse(down.table, 0, LEFT_TAPS)
      requires forall s: S, block: seq<Frame> {:trigger pipeline.step(s, block)} :: pipeline.step(s, block).block == block
      ensures Wet(o, host) <= host
    {
      var internal, n := up.Resampled(host), NewBlocks(o, up.Resampled(host));
      EqualRatesPass(up, host);
      assert internal[0..] == internal;
      pipeline.RunIdentity(o.state, internal, n);
      var piped := Piped(o, host).block;
      assert piped == internal[..n * BLOCK_FRAMES];
      EqualRatesPass(down, piped);
    }

    // -------------------------------------------------------------- queue balance

    /**
      The transport latency is long enough: whatever the host rate, after `T` host frames at least
      `T` minus the latency wet frames exist. It is also tight enough that no more than `T` exist.
    */
    lemma NeverDry(o: Origin<S>, host: seq<Frame>)
      requires Valid() && Covers(o, host)
      ensures |host| - TransportLatency() <= |Wet(o, host)| <= |host|
    {
      PipedShape(o, host);
      WetCount(up.inputRate, up, down, |host|);
    }
  }

  /** Host frames the 64-bit source positions of both resamplers can count. */
  ghost predicate WithinClock(total: nat) {
    total * INTERNAL_RATE + 4 * MAX_HOST_RATE <= U64_MAX
  }

  function Ramp(mix: real, target: real): real {
    if mix == target then mix
    else if mix < target then
      if target < mix + 1.0 / 256.0 then target else mix + 1.0 / 256.0
    else
      if target > mix - 1.0 / 256.0 then target else mix - 1.0 / 256.0
  }

  lemma BlendMoves(dry: real, wet: real, mix: real)
    ensures Blend(dry, wet, mix) - dry == mix * (wet - dry)
    ensures mix == 1.0 ==> Blend(dry, wet, mix) == wet
  {
  }

  function Blend(dry: real, wet: real, mix: real): real {
    dry * (1.0 - mix) + wet * mix
  }

  /** Within the clock neither resampler's counters can leave 64 bits. */
  lemma ClockSuffices(up: Filter, down: Filter, total: nat, piped: nat)
    requires up.Valid() && down.Valid() && up.inputRate == down.outputRate <= MAX_HOST_RATE
    requires up.outputRate == down.inputRate == INTERNAL_RATE
    requires WithinClock(total) && piped <= up.Ready(total)
    ensures WithinRange(up, total) && WithinRange(down, piped)
  {
    hide Filter.Ready;
    var rate := up.inputRate;
    ReadyBounds(up, total);
    ReadyBounds(down, piped);
    MulMonotone(piped, up.Ready(total), rate);
    MulMonotone(1, rate, up.Ready(total));
    Distribute(piped, 0 - RIGHT_TAPS, rate);
  }

  /** The two rate conversions and the block cut, composed. */
  lemma WetCount(rate: nat, up: Filter, down: Filter, total: nat)
    requires up.Valid() && down.Valid() && rate == up.inputRate == down.outputRate
    requires up.outputRate == down.inputRate == INTERNAL_RATE
    ensures var internal := up.Ready(total);
            var wet := down.Ready(internal - internal % BLOCK_FRAMES);
            && wet <= total
            && total - (RIGHT_TAPS + CeilDiv((BLOCK_FRAMES + RIGHT_TAPS) * rate, INTERNAL_RATE) + 4) <= wet
  {
    hide Filter.Ready;
    hide CeilDiv;
    var internal := up.Ready(total);
    var piped := internal - internal % BLOCK_FRAMES;
    ReadyBounds(up, total);
    ReadyBounds(down, piped);
    CeilDivBounds((BLOCK_FRAMES + RIGHT_TAPS) * rate, INTERNAL_RATE);
    MulMonotone(piped, internal, rate);
    MulMonotone(internal, piped + BLOCK_FRAMES - 1, rate);
    Distribute(piped, BLOCK_FRAMES - 1, rate);
    Distribute(piped, 0 - RIGHT_TAPS, rate);
    Balance(rate, total, internal * rate, piped, piped * rate, down.Ready(piped),
            CeilDiv((BLOCK_FRAMES + RIGHT_TAPS) * rate, INTERNAL_RATE));
  }

  /** The balance itself, with each rate-scaled count named so that it is linear. */
  lemma Balance(rate: nat, total: nat, scaledIn: nat, piped: nat, scaledPiped: nat, wet: nat, blockLatency: nat)
    requires (total - RIGHT_TAPS) * INTERNAL_RATE <= scaledIn
    requires if total <= RIGHT_TAPS then scaledIn == 0
             else scaledIn < (total - RIGHT_TAPS) * INTERNAL_RATE + rate
    requires scaledPiped <= scaledIn <= scaledPiped + (BLOCK_FRAMES - 1) * rate
    requires scaledPiped - RIGHT_TAPS * rate <= wet * INTERNAL_RATE
    requires if piped <= RIGHT_TAPS then wet == 0
             else wet * INTERNAL_RATE < scaledPiped - RIGHT_TAPS * rate + INTERNAL_RATE
    requires piped > RIGHT_TAPS && rate > 0 ==> scaledPiped > 0
    requires (BLOCK_FRAMES + RIGHT_TAPS) * rate <= blockLatency * INTERNAL_RATE
    ensures total - (RIGHT_TAPS + blockLatency + 4) <= wet <= total
  {
  }
}
