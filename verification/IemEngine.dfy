/** The engine around the transport: ring buffers, queues and counters that realise `IemTransport`. */
module IemEngines {
  import opened Arithmetic
  import opened Resampling
  import opened StreamingResampling
  import opened BlockScheduling
  import opened IemTransport

  const MAX_HOST_BLOCK: nat := 8192
  const U32_MAX: nat := 0xFFFF_FFFF

  datatype BypassReason =
    | NoBypass | Disabled | NotPrepared | InvalidBlock
    | ResamplerFailure | ProcessFailure | OutputUnderflow

  /** Interleaved stereo samples as frames. */
  function Deinterleave(samples: seq<real>, frames: nat): (s: seq<Frame>)
    requires frames * 2 <= |samples|
    ensures |s| == frames && IsStereo(s)
  {
    seq(frames, i requires 0 <= i < frames => [samples[i * 2], samples[i * 2 + 1]])
  }

  // ---------------------------------------------------------------- what one call puts into the host's buffer

  /** Sample `c` of frame `k` has moved from what it was towards the processed signal of its own channel. */
  ghost predicate MixesSample<S(!new)>(t: Transport<S>, o: Origin<S>, stream: seq<Frame>, before: seq<real>,
                                       after: seq<real>, from: nat, k: nat, c: nat)
    requires t.Valid() && t.Covers(o, stream) && from + k < |stream| && c < STEREO && k * 2 + c < |before| == |after|
  {
    after[k * 2 + c] - before[k * 2 + c]
    == t.MixAt(o, from + k + 1) * (t.Processed(o, stream, from + k, c) - before[k * 2 + c])
  }

  /** Sample `c` of frame `k` is the wet stream, late by the transport latency. */
  ghost predicate IsWetSample<S(!new)>(t: Transport<S>, o: Origin<S>, stream: seq<Frame>, after: seq<real>, from: nat,
                                       k: nat, c: nat)
    requires t.Valid() && t.Covers(o, stream) && k * 2 + c < |after|
  {
    && 0 <= from + k - t.TransportLatency() < |t.Wet(o, stream)|
    && c < |t.Wet(o, stream)[from + k - t.TransportLatency()]|
    && after[k * 2 + c] == t.Wet(o, stream)[from + k - t.TransportLatency()][c]
  }

  /** All samples of a call; with the mix all the way up, and past the transport latency, all of them are wet. */
  ghost predicate Mixes<S(!new)>(t: Transport<S>, o: Origin<S>, stream: seq<Frame>, before: seq<real>, after: seq<real>,
                                 from: nat, frames: nat)
    requires t.Valid() && t.Covers(o, stream)
  {
    && |stream| == from + frames && frames * 2 <= |before| == |after|
    && (forall k, c | 0 <= k < frames && 0 <= c < STEREO :: MixesSample(t, o, stream, before, after, from, k, c))
    && (t.MixAt(o, from) == 1.0 == o.target && t.TransportLatency() <= from ==>
          forall k, c | 0 <= k < frames && 0 <= c < STEREO :: IsWetSample(t, o, stream, after, from, k, c))
  }

  lemma EmittedMixes<S(!new)>(t: Transport<S>, o: Origin<S>, host: seq<Frame>, before: seq<real>, after: seq<real>,
                              frames: nat)
    requires t.Valid() && frames * 2 <= |before| == |after|
    requires t.Covers(o, host + Deinterleave(before, frames))
    requires Deinterleave(after, frames) == t.Emitted(o, host + Deinterleave(before, frames), |host|)
    ensures Mixes(t, o, host + Deinterleave(before, frames), before, after, |host|, frames)
  {
    var stream, from := host + Deinterleave(before, frames), |host|;
    forall k, c | 0 <= k < frames && 0 <= c < STEREO
      ensures MixesSample(t, o, stream, before, after, from, k, c)
      ensures t.MixAt(o, from) == 1.0 == o.target && t.TransportLatency() <= from ==>
                IsWetSample(t, o, stream, after, from, k, c)
    {
      assert after[k * 2 + c] == Deinterleave(after, frames)[k][c];
      assert Deinterleave(after, frames)[k] == t.Emitted(o, stream, from)[k];
      assert before[k * 2 + c] == stream[from + k][c];
      hide *;
      EmittedMixesSample(t, o, stream, before, after, from, k, c);
    }
    hide MixesSample;
    hide IsWetSample;
    hide Transport.Covers;
    hide Transport.MixAt;
    hide Transport.Emitted;
  }

  lemma EmittedMixesSample<S(!new)>(t: Transport<S>, o: Origin<S>, stream: seq<Frame>, before: seq<real>,
                                    after: seq<real>, from: nat, k: nat, c: nat)
    requires t.Valid() && t.Covers(o, stream) && from + k < |stream| && c < STEREO && k * 2 + c < |before| == |after|
    requires |t.Emitted(o, stream, from)[k]| == STEREO == |stream[from + k]|
    requires after[k * 2 + c] == t.Emitted(o, stream, from)[k][c] && before[k * 2 + c] == stream[from + k][c]
    ensures MixesSample(t, o, stream, before, after, from, k, c)
    ensures t.MixAt(o, from) == 1.0 == o.target && t.TransportLatency() <= from ==>
              IsWetSample(t, o, stream, after, from, k, c)
  {
    hide Transport.Output;
    hide Transport.Wet;
    hide Transport.Covers;
    hide Transport.Processed;
    t.OutputIsMix(o, stream, from + k, c);
    if t.MixAt(o, from) == 1.0 == o.target {
      t.MixStaysUp(o, from, from + k + 1);
    }
    hide Transport.MixAt;
  }

  // ---------------------------------------------------------------- where every frame is

  /**
    Every frame of the stream is in exactly one place: resampled input not yet processed is `queued`,
    wet output not yet handed out is `fifo`, and `popped` wet frames have left.
  */
  ghost predicate Flow<S(!new)>(t: Transport<S>, o: Origin<S>, host: seq<Frame>, blocks: nat, piped: seq<Frame>,
                                state: S, queued: seq<Frame>, fifo: seq<Frame>, popped: nat)
    requires t.Valid()
  {
    && t.Covers(o, host)
    && |piped| == |o.prefix| + blocks * BLOCK_FRAMES <= |t.up.Resampled(host)|
    && t.PipedBlocks(o, t.up.Resampled(host), blocks) == PipeResult(true, state, piped)
    && queued == t.up.Resampled(host)[|piped|..]
    && popped <= |t.down.Resampled(piped)| && fifo == t.down.Resampled(piped)[popped..]
  }

  /** New input joins the queue behind what the pipeline has not yet seen. */
  lemma FlowPush<S(!new)>(t: Transport<S>, o: Origin<S>, host: seq<Frame>, blocks: nat, piped: seq<Frame>, state: S,
                          queued: seq<Frame>, fifo: seq<Frame>, popped: nat, input: seq<Frame>, more: seq<Frame>)
    requires t.Valid() && Flow(t, o, host, blocks, piped, state, queued, fifo, popped) && IsStereo(input)
    requires t.up.Resampled(host + input) == t.up.Resampled(host) + more
    ensures Flow(t, o, host + input, blocks, piped, state, queued + more, fifo, popped)
  {
    var before, after, from := t.up.Resampled(host), t.up.Resampled(host + input), |o.prefix|;
    assert after[from..] == before[from..] + more;
    t.pipeline.RunIsStable(o.state, before[from..], more, blocks);
    assert after[|piped|..] == before[|piped|..] + more;
  }

  /** The next block of the queue is the next block the pipeline has to see. */
  lemma FlowNextBlock<S(!new)>(t: Transport<S>, o: Origin<S>, host: seq<Frame>, blocks: nat, piped: seq<Frame>,
                               state: S, queued: seq<Frame>, fifo: seq<Frame>, popped: nat)
    requires t.Valid() && Flow(t, o, host, blocks, piped, state, queued, fifo, popped)
    requires |queued| >= BLOCK_FRAMES
    ensures var block := queued[..BLOCK_FRAMES];
            var next := t.pipeline.step(state, block);
            && IsStereo(block) && IsStereo(next.block) && |next.block| == BLOCK_FRAMES
            && |piped + next.block| == |o.prefix| + (blocks + 1) * BLOCK_FRAMES <= |t.up.Resampled(host)|
            && t.PipedBlocks(o, t.up.Resampled(host), blocks + 1)
                 == PipeResult(next.ok, next.state, piped + next.block)
  {
    hide Filter.Resampled;
    hide Transport.NewBlocks;
    var internal, from := t.up.Resampled(host), |o.prefix|;
    var block := queued[..BLOCK_FRAMES];
    assert block == internal[from..][blocks * BLOCK_FRAMES..(blocks + 1) * BLOCK_FRAMES];
    assert IsStereo(block) by {
      InternalIsStereo(t, host);
    }
    var run := t.pipeline.Run(o.state, internal[from..], blocks);
    assert o.prefix + run.block == piped;
    assert piped + t.pipeline.step(state, block).block == o.prefix + (run.block + t.pipeline.step(state, block).block);
  }

  lemma InternalIsStereo<S(!new)>(t: Transport<S>, host: seq<Frame>)
    requires t.Valid()
    ensures IsStereo(t.up.Resampled(host))
  {
  }

  /** A failing block makes the whole stream a failing one. */
  lemma FlowFails<S(!new)>(t: Transport<S>, o: Origin<S>, host: seq<Frame>, blocks: nat, piped: seq<Frame>,
                           state: S, queued: seq<Frame>, fifo: seq<Frame>, popped: nat)
    requires t.Valid() && Flow(t, o, host, blocks, piped, state, queued, fifo, popped)
    requires |queued| >= BLOCK_FRAMES && !t.pipeline.step(state, queued[..BLOCK_FRAMES]).ok
    ensures !t.Piped(o, host).ok
  {
    hide Filter.Resampled;
    FlowNextBlock(t, o, host, blocks, piped, state, queued, fifo, popped);
    var internal := t.up.Resampled(host);
    t.pipeline.RunGrows(o.state, internal[|o.prefix|..], blocks + 1, t.NewBlocks(o, internal));
  }

  /** However far the pipeline got, there are no more wet frames than host frames. */
  lemma FlowBounded<S(!new)>(t: Transport<S>, o: Origin<S>, host: seq<Frame>, piped: nat)
    requires t.Valid() && t.Covers(o, host)
    requires piped <= |t.up.Resampled(host)| && piped % BLOCK_FRAMES == 0
    ensures t.down.Ready(piped) <= |host|
  {
    hide Filter.Ready;
    hide Transport.Piped;
    hide Filter.Resampled;
    t.PipedShape(o, host);
    WholeBlocks(piped, |t.up.Resampled(host)|);
    t.NeverDry(o, host);
    ReadyMonotone(t.down, piped, |t.Piped(o, host).block|);
  }

  lemma WholeBlocks(part: nat, whole: nat)
    requires part <= whole && part % BLOCK_FRAMES == 0
    ensures part <= whole - whole % BLOCK_FRAMES
  {
  }

  /** What the next block adds still leaves no more wet frames than host frames. */
  lemma FlowFits<S(!new)>(t: Transport<S>, o: Origin<S>, host: seq<Frame>, blocks: nat, piped: seq<Frame>,
                          state: S, queued: seq<Frame>, fifo: seq<Frame>, popped: nat, next: seq<Frame>)
    requires t.Valid() && Flow(t, o, host, blocks, piped, state, queued, fifo, popped)
    requires |queued| >= BLOCK_FRAMES == |next|
    ensures |fifo| + popped == |t.down.Resampled(piped)| && |t.down.Resampled(piped + next)| <= |host|
  {
    hide Filter.Resampled;
    FlowBounded(t, o, host, |piped + next|);
  }

  /** One block moves from the queue through the pipeline and the output resampler. */
  lemma FlowBlock<S(!new)>(t: Transport<S>, o: Origin<S>, host: seq<Frame>, blocks: nat, piped: seq<Frame>, state: S,
                           queued: seq<Frame>, fifo: seq<Frame>, popped: nat, more: seq<Frame>)
    requires t.Valid() && Flow(t, o, host, blocks, piped, state, queued, fifo, popped)
    requires |queued| >= BLOCK_FRAMES && t.pipeline.step(state, queued[..BLOCK_FRAMES]).ok
    requires var next := t.pipeline.step(state, queued[..BLOCK_FRAMES]);
             t.down.Resampled(piped + next.block) == t.down.Resampled(piped) + more
    ensures var next := t.pipeline.step(state, queued[..BLOCK_FRAMES]);
            Flow(t, o, host, blocks + 1, piped + next.block, next.state, queued[BLOCK_FRAMES..], fifo + more, popped)
  {
    hide Filter.Resampled;
    FlowNextBlock(t, o, host, blocks, piped, state, queued, fifo, popped);
    assert queued[BLOCK_FRAMES..] == t.up.Resampled(host)[|piped| + BLOCK_FRAMES..];
  }

  /** With less than a block queued, the pipeline has seen all it can of the host stream. */
  lemma FlowDrained<S(!new)>(t: Transport<S>, o: Origin<S>, host: seq<Frame>, blocks: nat, piped: seq<Frame>, state: S,
                             queued: seq<Frame>, fifo: seq<Frame>, popped: nat)
    requires t.Valid() && Flow(t, o, host, blocks, piped, state, queued, fifo, popped) && |queued| < BLOCK_FRAMES
    ensures t.Piped(o, host) == PipeResult(true, state, piped)
  {
    hide Filter.Resampled;
    assert t.NewBlocks(o, t.up.Resampled(host)) == blocks;
  }

  /** Changing parameters re-bases the account of the stream; nothing in flight is lost. */
  lemma FlowRetune<S(!new)>(t: Transport<S>, o: Origin<S>, host: seq<Frame>, blocks: nat, piped: seq<Frame>,
                            state: S, queued: seq<Frame>, fifo: seq<Frame>, popped: nat,
                            retuned: S, mix: real, target: real)
    requires t.Valid() && Flow(t, o, host, blocks, piped, state, queued, fifo, popped)
    ensures Flow(t, Origin(piped, retuned, |host|, mix, target), host, 0, piped, retuned, queued, fifo, popped)
  {
    hide Filter.Resampled;
    InternalIsStereo(t, host);
    var internal, from := t.up.Resampled(host), |o.prefix|;
    t.pipeline.RunShape(o.state, internal[from..], blocks);
    var run := t.pipeline.Run(o.state, internal[from..], blocks);
    assert piped == o.prefix + run.block;
    assert t.pipeline.Run(retuned, internal[|piped|..], 0) == PipeResult(true, retuned, []);
    assert piped + [] == piped;
  }

  class IemEngine<S(!new)> {
    var prepared: bool
    var transport: Transport<S>
    var maxBlock: nat
    var enable: bool
    var active: bool
    var inputResampler: StreamingResampler
    var outputResampler: StreamingResampler
    var inputScheduler: PlanarBlockScheduler<Frame>
    var outputFifo: PlanarBlockScheduler<Frame>
    var pipelineState: S
    var internalScratch: nat
    var hostScratch: nat
    var latencyFrames: nat
    var transportLatency: nat
    var emittedHostFrames: nat
    var enableMix: real
    var targetMix: real

    /** The host stream since the pipeline was last reset, and all pipeline output for it. */
    ghost var host: seq<Frame>
    ghost var piped: seq<Frame>
    ghost var blocks: nat
    ghost var origin: Origin<S>
    ghost var repr: set<object>

    ghost function Rings(): seq<array<Frame>>
      reads `inputResampler, `outputResampler, `inputScheduler, `outputFifo,
            inputResampler, outputResampler, inputScheduler, outputFifo
    {
      [inputResampler.ring, outputResampler.ring, inputScheduler.ring, outputFifo.ring]
    }

    ghost predicate Separate()
      reads `inputResampler, `outputResampler, `inputScheduler, `outputFifo, `repr, repr
    {
      && this !in repr && {inputResampler, outputResampler, inputScheduler, outputFifo} <= repr
      && repr == {inputResampler, outputResampler, inputScheduler, outputFifo,
                  inputResampler.ring, outputResampler.ring, inputScheduler.ring, outputFifo.ring}
      && inputResampler != outputResampler && inputScheduler != outputFifo
      && inputResampler.ring != outputResampler.ring && inputScheduler.ring != outputFifo.ring
      && inputResampler.ring != inputScheduler.ring && inputResampler.ring != outputFifo.ring
      && outputResampler.ring != inputScheduler.ring && outputResampler.ring != outputFifo.ring
    }

    /** The buffers are prepared for each other. */
    ghost predicate Connected()
      reads `inputResampler, `outputResampler, `inputScheduler, `outputFifo, `repr, repr,
            `transport, `maxBlock, `internalScratch, `hostScratch, `latencyFrames, `transportLatency
    {
      && Separate()
      && transport.Valid() && 0 < maxBlock <= MAX_HOST_BLOCK
      && latencyFrames == transport.Latency() && transportLatency == transport.TransportLatency()
      && inputResampler.Valid() && inputResampler.prepared && inputResampler.filter == transport.up && inputResampler.maxInput == maxBlock
      && outputResampler.Valid() && outputResampler.prepared && outputResampler.filter == transport.down
      && outputResampler.maxInput == BLOCK_FRAMES
      && internalScratch == MaxOutputFrames(transport.up, maxBlock)
      && hostScratch == MaxOutputFrames(transport.down, BLOCK_FRAMES)
      && inputScheduler.Valid() && inputScheduler.IsPrepared()
      && inputScheduler.capacity >= internalScratch + BLOCK_FRAMES * 2
      && outputFifo.Valid() && outputFifo.IsPrepared()
      && outputFifo.capacity >= maxBlock * 2 + hostScratch * 4 + latencyFrames
    }

    /** The resamplers and queues hold exactly what `Flow` accounts for. */
    ghost predicate Streaming(popped: nat)
      reads `inputResampler, `outputResampler, `inputScheduler, `outputFifo, `repr, repr,
            `transport, `maxBlock, `internalScratch, `hostScratch, `latencyFrames, `transportLatency,
            `host, `blocks, `piped, `origin, `pipelineState
    {
      && Connected()
      && inputResampler.Steady() && inputResampler.history == host
      && outputResampler.Steady() && outputResampler.history == piped
      && inputScheduler.BlockAligned()
      && Flow(transport, origin, host, blocks, piped, pipelineState,
              inputScheduler.Contents(), outputFifo.Contents(), popped)
    }

    /** The state between two calls. */
    ghost predicate Balanced()
      reads this, repr
    {
      && Connected() && (enable ==> active)
      && emittedHostFrames == |host|
      && Streaming(Popped(|host|))
      && inputScheduler.count < BLOCK_FRAMES
      && enableMix == transport.MixAt(origin, |host|) && targetMix == origin.target
    }

    /** Wet frames handed out after `total` host frames: everything past the transport latency. */
    function Popped(total: nat): nat
      reads `transportLatency
    {
      if total < transportLatency then 0 else total - transportLatency
    }

    constructor (pipeline: Pipeline<S>)
      ensures !prepared
    {
      prepared, enable, active := false, false, false;
      transport := Transport(Filter(0, 0, 0, []), Filter(0, 0, 0, []), pipeline);
      inputResampler := new StreamingResampler();
      outputResampler := new StreamingResampler();
      inputScheduler := new PlanarBlockScheduler<Frame>();
      outputFifo := new PlanarBlockScheduler<Frame>();
      pipelineState := pipeline.initial;
      maxBlock, internalScratch, hostScratch, latencyFrames, transportLatency := 0, 0, 0, 0, 0;
      emittedHostFrames, enableMix, targetMix := 0, 0.0, 0.0;
      host, blocks, piped, origin := [], 0, [], Origin([], pipeline.initial, 0, 0.0, 0.0);
    }

    /** Succeeds exactly on the supported configurations; a refused one leaves the engine as it was. */
    method Prepare(hostRate: nat, maxHostBlock: nat, internalRate: nat, internalBlock: nat, maxChannels: nat,
                   enabled: bool, pipeline: Pipeline<S>, upTable: seq<real>, downTable: seq<real>)
      returns (ok: bool)
      requires pipeline.Lawful()
      requires |upTable| == |downTable| == PHASE_COUNT * TAP_COUNT
      modifies this
      ensures ok <==>
                && MIN_HOST_RATE <= hostRate <= MAX_HOST_RATE && 0 < maxHostBlock <= MAX_HOST_BLOCK
                && internalRate == INTERNAL_RATE && internalBlock == BLOCK_FRAMES
                && maxChannels == BlockScheduling.MAX_CHANNELS
                && Sizable(Stereo(hostRate, pipeline, upTable, downTable), maxHostBlock)
      ensures ok ==> prepared && Balanced() && transport == Stereo(hostRate, pipeline, upTable, downTable)
                     && maxBlock == maxHostBlock && fresh(repr) && host == []
                     && enable == active == enabled && enableMix == targetMix == (if enabled then 1.0 else 0.0)
      ensures !ok ==> unchanged(this)
    {
      if hostRate < MIN_HOST_RATE || hostRate > MAX_HOST_RATE
         || maxHostBlock == 0 || maxHostBlock > MAX_HOST_BLOCK || internalRate != 96000
         || internalBlock != BLOCK_FRAMES || maxChannels != BlockScheduling.MAX_CHANNELS {
        return false;
      }
      hide Transport.Latency;
      hide Connected;
      hide Balanced;
      ok := PrepareBuffers(Stereo(hostRate, pipeline, upTable, downTable), maxHostBlock);
      if ok {
        Start(enabled);
      }
    }

    method Start(enabled: bool)
      requires Connected()
      modifies `prepared, `enable, `active, `enableMix, `targetMix, `host, `blocks, `piped, `origin,
               `pipelineState, `emittedHostFrames, repr
      ensures prepared && Balanced() && host == [] && Rings() == old(Rings())
      ensures enable == active == enabled && enableMix == targetMix == (if enabled then 1.0 else 0.0)
    {
      hide Connected;
      hide Balanced;
      ConnectedIsValid();
      enable, active := enabled, enabled;
      enableMix := if enabled then 1.0 else 0.0;
      targetMix := enableMix;
      prepared := true;
      ResetPipeline();
    }

    /** Sizes every buffer for the worst host block. */
    method PrepareBuffers(t: Transport<S>, maxHostBlock: nat) returns (ok: bool)
      requires t.Valid() && 0 < maxHostBlock <= MAX_HOST_BLOCK
      modifies this
      ensures ok <==> Sizable(t, maxHostBlock)
      ensures ok ==> Connected() && transport == t && maxBlock == maxHostBlock && fresh(repr)
      ensures !ok ==> unchanged(this)
    {
      hide StreamingResampler.Valid;
      hide StreamingResampler.Steady;
      hide StreamingResampler.Accepts;
      hide PlanarBlockScheduler.Valid;
      hide PlanarBlockScheduler.Contents;
      hide Filter.Resampled;
      hide Filter.Ready;
      hide MaxOutputFrames;
      hide Connected;
      hide Transport.Latency;
      var up, down, scheduler, fifo;
      ok, up := NewResampler(t.up, maxHostBlock);
      if !ok {
        return;
      }
      var upScratch := MaxOutputFrames(t.up, maxHostBlock);
      ok, down := NewResampler(t.down, BLOCK_FRAMES);
      if !ok {
        return;
      }
      var downScratch := MaxOutputFrames(t.down, BLOCK_FRAMES);
      ScratchIsSmall(t.up, maxHostBlock);
      ScratchIsSmall(t.down, BLOCK_FRAMES);
      if upScratch == 0 || upScratch == U64_MAX || downScratch == 0 || downScratch == U64_MAX {
        return false;
      }
      if t.Latency() > U32_MAX {
        return false;
      }
      ok, scheduler := NewQueue(upScratch + BLOCK_FRAMES * 2);
      if !ok {
        return;
      }
      ok, fifo := NewQueue(maxHostBlock * 2 + downScratch * 4 + t.Latency());
      if !ok {
        return;
      }
      Wire(t, maxHostBlock, up, down, scheduler, fifo);
    }

    method NewResampler(f: Filter, maxInput: nat) returns (ok: bool, r: StreamingResampler)
      requires f.Valid() && f.channels == STEREO && 0 < maxInput <= MAX_HOST_BLOCK
      ensures ok && r.Valid() && r.prepared && r.filter == f && r.maxInput == maxInput
      ensures fresh(r) && fresh(r.ring)
    {
      r := new StreamingResampler();
      ok := r.Prepare(f.inputRate, f.outputRate, f.channels, maxInput, f.table);
    }

    method NewQueue(capacity: nat) returns (ok: bool, q: PlanarBlockScheduler<Frame>)
      requires capacity <= 0x1_0000_0000_0000
      ensures ok <==> BLOCK_FRAMES <= capacity
      ensures ok ==> q.Valid() && q.IsPrepared() && q.capacity >= capacity && fresh(q) && fresh(q.ring)
    {
      q := new PlanarBlockScheduler<Frame>();
      ok := q.Prepare(STEREO, capacity);
    }

    method Wire(t: Transport<S>, maxHostBlock: nat, up: StreamingResampler, down: StreamingResampler,
                scheduler: PlanarBlockScheduler<Frame>, fifo: PlanarBlockScheduler<Frame>)
      requires t.Valid() && 0 < maxHostBlock <= MAX_HOST_BLOCK
      requires up.Valid() && up.prepared && up.filter == t.up && up.maxInput == maxHostBlock
      requires down.Valid() && down.prepared && down.filter == t.down && down.maxInput == BLOCK_FRAMES
      requires scheduler.Valid() && scheduler.IsPrepared()
      requires scheduler.capacity >= MaxOutputFrames(t.up, maxHostBlock) + BLOCK_FRAMES * 2
      requires fifo.Valid() && fifo.IsPrepared()
      requires fifo.capacity >= maxHostBlock * 2 + MaxOutputFrames(t.down, BLOCK_FRAMES) * 4 + t.Latency()
      requires up != down && scheduler != fifo
      requires up.ring != down.ring && scheduler.ring != fifo.ring && up.ring != scheduler.ring
               && up.ring != fifo.ring && down.ring != scheduler.ring && down.ring != fifo.ring
      modifies `transport, `maxBlock, `internalScratch, `hostScratch, `latencyFrames, `transportLatency,
               `pipelineState, `inputResampler, `outputResampler, `inputScheduler, `outputFifo, `repr
      ensures Connected() && transport == t && maxBlock == maxHostBlock
      ensures repr == {up, down, scheduler, fifo, up.ring, down.ring, scheduler.ring, fifo.ring}
    {
      hide StreamingResampler.Valid;
      hide StreamingResampler.Steady;
      hide StreamingResampler.Accepts;
      hide PlanarBlockScheduler.Valid;
      hide PlanarBlockScheduler.Contents;
      hide Filter.Resampled;
      hide Filter.Ready;
      hide MaxOutputFrames;
      hide Transport.Latency;
      hide Transport.TransportLatency;
      SetSizes(t, maxHostBlock);
      inputResampler, outputResampler, inputScheduler, outputFifo := up, down, scheduler, fifo;
      repr := {up, down, scheduler, fifo, up.ring, down.ring, scheduler.ring, fifo.ring};
    }

    method SetSizes(t: Transport<S>, maxHostBlock: nat)
      requires t.Valid()
      modifies `transport, `maxBlock, `internalScratch, `hostScratch, `latencyFrames, `transportLatency,
               `pipelineState
      ensures transport == t && maxBlock == maxHostBlock && pipelineState == t.pipeline.initial
      ensures internalScratch == MaxOutputFrames(t.up, maxHostBlock)
      ensures hostScratch == MaxOutputFrames(t.down, BLOCK_FRAMES)
      ensures latencyFrames == t.Latency() && transportLatency == t.TransportLatency()
    {
      hide *;
      transport, maxBlock, pipelineState := t, maxHostBlock, t.pipeline.initial;
      internalScratch, hostScratch := MaxOutputFrames(t.up, maxHostBlock), MaxOutputFrames(t.down, BLOCK_FRAMES);
      latencyFrames, transportLatency := t.Latency(), t.TransportLatency();
    }

    method ReadInput(stereo: array<real>, frames: nat) returns (input: seq<Frame>)
      requires frames * 2 <= stereo.Length
      ensures input == Deinterleave(stereo[..], frames)
    {
      input := [];
      for frame := 0 to frames
        invariant input == Deinterleave(stereo[..], frame)
      {
        input := input + [[stereo[frame * 2], stereo[frame * 2 + 1]]];
      }
    }

    /** Runs one host block through the input resampler. */
    method ResampleInput(input: seq<Frame>) returns (internal: seq<Frame>)
      requires Connected() && inputResampler.Steady() && inputResampler.history == host
      requires IsStereo(input) && |input| <= maxBlock && WithinClock(|host| + |input|)
      modifies `host, inputResampler, inputResampler.ring
      ensures Connected() && inputResampler.Steady() && !inputResampler.failed
      ensures host == old(host) + input == inputResampler.history && |internal| <= internalScratch
      ensures transport.up.Resampled(host) == transport.up.Resampled(old(host)) + internal
      ensures inputResampler.ring == old(inputResampler.ring)
    {
      hide StreamingResampler.Valid;
      hide StreamingResampler.Steady;
      hide StreamingResampler.Accepts;
      hide PlanarBlockScheduler.Valid;
      hide PlanarBlockScheduler.Contents;
      hide Filter.Resampled;
      hide Filter.Ready;
      hide MaxOutputFrames;
      ClockSuffices(transport.up, transport.down, |host| + |input|, 0);
      MaxOutputMonotone(transport.up, |input|, maxBlock);
      inputResampler.SteadyIsReady();
      internal := inputResampler.Process(input, internalScratch);
      inputResampler.SteadyIsReady();
      host := host + input;
    }

    /** Resamples one host block into the scheduler. */
    method PushInput(input: seq<Frame>, ghost popped: nat) returns (ok: bool, reason: BypassReason)
      requires Streaming(popped) && inputScheduler.count < BLOCK_FRAMES
      requires IsStereo(input) && |input| <= maxBlock && WithinClock(|host| + |input|)
      modifies `host, inputResampler, inputResampler.ring, inputScheduler, inputScheduler.ring
      ensures ok && host == old(host) + input && Streaming(popped)
      ensures Rings() == old(Rings())
    {
      hide StreamingResampler.Valid;
      hide StreamingResampler.Steady;
      hide StreamingResampler.Accepts;
      hide PlanarBlockScheduler.Valid;
      hide PlanarBlockScheduler.Contents;
      hide Filter.Resampled;
      hide Filter.Ready;
      hide MaxOutputFrames;
      hide Flow;
      ok, reason := true, NoBypass;
      var internal := ResampleInput(input);
      FlowPush(transport, origin, old(host), blocks, piped, pipelineState,
               inputScheduler.Contents(), outputFifo.Contents(), popped, input, internal);
      if inputResampler.failed {
        return false, ResamplerFailure;
      }
      if |internal| != 0 {
        var pushed := inputScheduler.Push(internal);
        if !pushed {
          return false, InvalidBlock;
        }
      }
      assert inputScheduler.Contents() == old(inputScheduler.Contents()) + internal;
    }

    /** One pass of the block loop. */
    method RunBlock(ghost popped: nat) returns (ok: bool, reason: BypassReason)
      requires Streaming(popped) && inputScheduler.HasBlock()
      requires |host| - popped <= maxBlock + transportLatency && WithinClock(|host|)
      modifies `blocks, `piped, `pipelineState, outputResampler, outputResampler.ring,
               inputScheduler, outputFifo, outputFifo.ring
      ensures Rings() == old(Rings()) && Connected()
      ensures ok ==> Streaming(popped) && inputScheduler.count == old(inputScheduler.count) - BLOCK_FRAMES
      ensures !ok ==> reason == ProcessFailure && !transport.Piped(origin, host).ok
    {
      hide StreamingResampler.Valid;
      hide StreamingResampler.Steady;
      hide StreamingResampler.Accepts;
      hide PlanarBlockScheduler.Valid;
      hide PlanarBlockScheduler.Contents;
      hide Filter.Resampled;
      hide Filter.Ready;
      hide MaxOutputFrames;
      hide Flow;
      ok, reason := true, NoBypass;
      ghost var queued, fifo := inputScheduler.Contents(), outputFifo.Contents();
      var block := inputScheduler.ChannelBlock();
      FlowNextBlock(transport, origin, host, blocks, piped, pipelineState, queued, fifo, popped);
      var processed := transport.pipeline.step(pipelineState, block);
      if !processed.ok {
        FlowFails(transport, origin, host, blocks, piped, pipelineState, queued, fifo, popped);
        return false, ProcessFailure;
      }
      FlowFits(transport, origin, host, blocks, piped, pipelineState, queued, fifo, popped, processed.block);
      var produced := ResampleOutput(processed.block);
      if outputResampler.failed {
        return false, ResamplerFailure;
      }
      FlowBlock(transport, origin, host, blocks, old(piped), pipelineState, queued, fifo, popped, produced);
      var pushed := PushOutput(produced, popped);
      if !pushed {
        return false, InvalidBlock;
      }
      pipelineState := processed.state;
      blocks := blocks + 1;
      inputScheduler.ConsumeBlock();
    }

    method PushOutput(produced: seq<Frame>, ghost popped: nat) returns (pushed: bool)
      requires Connected()
      requires |outputFifo.Contents()| + |produced| + popped <= |host| <= popped + maxBlock + transportLatency
      modifies outputFifo, outputFifo.ring
      ensures pushed && Connected() && outputFifo.ring == old(outputFifo.ring)
      ensures outputFifo.Contents() == old(outputFifo.Contents()) + produced
    {
      hide StreamingResampler.Valid;
      hide StreamingResampler.Steady;
      hide StreamingResampler.Accepts;
      hide PlanarBlockScheduler.Valid;
      hide PlanarBlockScheduler.Contents;
      hide Filter.Resampled;
      hide Filter.Ready;
      hide MaxOutputFrames;
      pushed := true;
      assert transportLatency <= latencyFrames;
      if |produced| != 0 {
        pushed := outputFifo.Push(produced);
      }
      assert outputFifo.Contents() == old(outputFifo.Contents()) + produced;
    }

    /** Runs one processed block through the output resampler. */
    method ResampleOutput(block: seq<Frame>) returns (produced: seq<Frame>)
      requires Connected() && outputResampler.Steady() && outputResampler.history == piped
      requires IsStereo(block) && |block| == BLOCK_FRAMES
      requires WithinClock(|host|) && |piped + block| <= transport.up.Ready(|host|)
      modifies `piped, outputResampler, outputResampler.ring
      ensures Connected() && outputResampler.Steady() && !outputResampler.failed
      ensures piped == old(piped) + block == outputResampler.history && |produced| <= hostScratch
      ensures transport.down.Resampled(piped) == transport.down.Resampled(old(piped)) + produced
      ensures outputResampler.ring == old(outputResampler.ring)
    {
      hide StreamingResampler.Valid;
      hide StreamingResampler.Steady;
      hide StreamingResampler.Accepts;
      hide PlanarBlockScheduler.Valid;
      hide PlanarBlockScheduler.Contents;
      hide Filter.Resampled;
      hide Filter.Ready;
      hide MaxOutputFrames;
      ClockSuffices(transport.up, transport.down, |host|, |piped + block|);
      outputResampler.SteadyIsReady();
      produced := outputResampler.Process(block, hostScratch);
      outputResampler.SteadyIsReady();
      piped := piped + block;
    }

    /** The block loop of `Process`: runs the pipeline until less than a block is queued. */
    method RunBlocks(ghost popped: nat) returns (ok: bool, reason: BypassReason)
      requires Streaming(popped)
      requires |host| - popped <= maxBlock + transportLatency && WithinClock(|host|)
      modifies `blocks, `piped, `pipelineState, outputResampler, outputResampler.ring,
               inputScheduler, outputFifo, outputFifo.ring
      ensures Rings() == old(Rings()) && Connected()
      ensures ok <==> transport.Piped(origin, host).ok
      ensures ok ==> Streaming(popped) && inputScheduler.count < BLOCK_FRAMES
                     && transport.Piped(origin, host) == PipeResult(true, pipelineState, piped)
      ensures !ok ==> reason == ProcessFailure
    {
      hide Streaming;
      hide Connected;
      ok, reason := true, NoBypass;
      StreamingIsValid(popped);
      while inputScheduler.HasBlock()
        invariant ok && Rings() == old(Rings()) && Streaming(popped)
        invariant inputScheduler.count >= 0
        decreases inputScheduler.count
      {
        StreamingIsValid(popped);
        ok, reason := RunBlock(popped);
        if !ok {
          return;
        }
      }
      StreamingIsValid(popped);
      DrainedIsPiped(popped);
    }

    lemma ConnectedIsValid()
      requires Connected()
      ensures transport.Valid() && transportLatency == transport.TransportLatency()
      ensures latencyFrames == transport.Latency() && this !in repr
      ensures inputScheduler.Valid() && inputScheduler.count == |inputScheduler.Contents()| && outputFifo.Valid()
    {
    }

    lemma BalancedIsConnected()
      requires Balanced()
      ensures Connected() && (enable ==> active) && this !in repr && transport.Valid()
    {
    }

    lemma BalancedTarget()
      requires Balanced()
      ensures targetMix == origin.target
    {
    }

    /** The host's sample buffer is none of the engine's own objects. */
    lemma BufferIsForeign(stereo: array<real>)
      requires Connected()
      ensures stereo !in repr
    {
    }

    lemma StreamingIsValid(popped: nat)
      requires Streaming(popped)
      ensures transport.Valid() && Connected() && transport.Covers(origin, host) && this !in repr
    {
    }

    lemma DrainedIsPiped(popped: nat)
      requires Streaming(popped) && inputScheduler.count < BLOCK_FRAMES
      ensures transport.Piped(origin, host) == PipeResult(true, pipelineState, piped)
    {
      hide Transport.Piped;
      hide Filter.Resampled;
      FlowDrained(transport, origin, host, blocks, piped, pipelineState,
                  inputScheduler.Contents(), outputFifo.Contents(), popped);
    }

    /** The processed signal of this call: silence until the transport latency, then the wet stream. */
    method Collect(frames: nat) returns (ok: bool, processed: seq<Frame>)
      requires Connected() && emittedHostFrames + frames == |host|
      requires Streaming(Popped(emittedHostFrames)) && piped == transport.Piped(origin, host).block
      modifies outputFifo
      ensures ok && Streaming(Popped(|host|)) && Rings() == old(Rings())
      ensures |processed| == frames && IsStereo(processed)
      ensures forall k, c | 0 <= k < frames && 0 <= c < STEREO :: processed[k][c]
                == Sample(transport.Wet(origin, host), emittedHostFrames + k - transportLatency, c)
    {
      hide StreamingResampler.Valid;
      hide StreamingResampler.Steady;
      hide StreamingResampler.Accepts;
      hide PlanarBlockScheduler.Valid;
      hide PlanarBlockScheduler.Contents;
      hide Filter.Resampled;
      hide Filter.Ready;
      hide MaxOutputFrames;
      hide Transport.Piped;
      ghost var popped, wet := Popped(emittedHostFrames), transport.Wet(origin, host);
      transport.NeverDry(origin, host);
      assert outputFifo.Contents() == wet[popped..];
      assert IsStereo(wet) by {
        WetIsStereo(transport, origin, host);
      }
      var initialZeros := if emittedHostFrames < transportLatency
                          then Min(frames, transportLatency - emittedHostFrames) else 0;
      var required := frames - initialZeros;
      if required > outputFifo.count {
        return false, [];
      }
      processed := seq(initialZeros, _ => [0.0, 0.0]);
      ok := true;
      if required != 0 {
        var output;
        ok, output := outputFifo.Pop(required);
        processed := processed + output;
      }
    }

    /** The enable ramp. */
    method UpdateEnableRamp()
      modifies `enableMix
      ensures enableMix == Ramp(old(enableMix), targetMix)
    {
      if enableMix == targetMix {
        return;
      }
      var step := 1.0 / 256.0;
      if enableMix < targetMix {
        enableMix := if targetMix < enableMix + step then targetMix else enableMix + step;
      } else {
        enableMix := if targetMix > enableMix - step then targetMix else enableMix - step;
      }
    }

    /** The mixing loop of `Process`. */
    method MixInto(stereo: array<real>, input: seq<Frame>, processed: seq<Frame>)
      requires transport.Valid() && latencyFrames == transport.Latency() && origin.frame <= emittedHostFrames
      requires |input| == |processed| && IsStereo(input) && IsStereo(processed) && |input| * 2 <= stereo.Length
      requires enableMix == transport.MixAt(origin, emittedHostFrames) && targetMix == origin.target
      modifies `enableMix, stereo
      ensures enableMix == transport.MixAt(origin, emittedHostFrames + |input|)
      ensures forall k | 0 <= k < |input| :: Deinterleave(stereo[..], |input|)[k]
                == Mixed(input[k], processed[k], transport.MixAt(origin, emittedHostFrames + k + 1))
      ensures stereo[|input| * 2..] == old(stereo[|input| * 2..])
    {
      for frame := 0 to |input|
        invariant enableMix == transport.MixAt(origin, emittedHostFrames + frame)
        invariant forall k | 0 <= k < frame :: [stereo[k * 2], stereo[k * 2 + 1]]
                    == Mixed(input[k], processed[k], transport.MixAt(origin, emittedHostFrames + k + 1))
        invariant forall i | |input| * 2 <= i < stereo.Length :: stereo[i] == old(stereo[i])
      {
        if emittedHostFrames + frame >= latencyFrames {
          UpdateEnableRamp();
        }
        var mix := enableMix;
        stereo[frame * 2] := Blend(input[frame][0], processed[frame][0], mix);
        stereo[frame * 2 + 1] := Blend(input[frame][1], processed[frame][1], mix);
      }
    }

    /** From one host block to the processed signal that goes with it. */
    method Produce(input: seq<Frame>) returns (ok: bool, reason: BypassReason, processed: seq<Frame>)
      requires Balanced() && IsStereo(input) && |input| <= maxBlock && WithinClock(|host| + |input|)
      modifies `host, `blocks, `piped, `pipelineState, repr
      ensures Rings() == old(Rings()) && Connected() && host == old(host) + input
      ensures transport.Covers(origin, host)
      ensures ok <==> transport.Piped(origin, host).ok
      ensures !ok ==> reason == ProcessFailure
      ensures ok ==>
                && Streaming(Popped(|host|)) && inputScheduler.count < BLOCK_FRAMES
                && |processed| == |input| && IsStereo(processed)
                && forall k, c | 0 <= k < |input| && 0 <= c < STEREO :: processed[k][c]
                     == Sample(transport.Wet(origin, host), emittedHostFrames + k - transportLatency, c)
    {
      hide Streaming;
      hide Transport.Piped;
      hide Transport.Wet;
      processed := [];
      ok, reason := PushInput(input, Popped(emittedHostFrames));
      if !ok {
        return;
      }
      StreamingIsValid(Popped(emittedHostFrames));
      hide Connected;
      ok, reason := RunBlocks(Popped(emittedHostFrames));
      if !ok {
        return;
      }
      StreamingIsValid(Popped(emittedHostFrames));
      ok, processed := Collect(|input|);
      if !ok {
        return false, OutputUnderflow, [];
      }
      StreamingIsValid(Popped(|host|));
    }

    /** Mixes the processed signal into the host buffer and advances the frame counter. */
    method Deliver(stereo: array<real>, input: seq<Frame>, processed: seq<Frame>)
      requires Streaming(Popped(|host|)) && inputScheduler.count < BLOCK_FRAMES && (enable ==> active)
      requires emittedHostFrames + |input| == |host| && input == host[emittedHostFrames..]
      requires |processed| == |input| && IsStereo(input) && IsStereo(processed) && |input| * 2 <= stereo.Length
      requires stereo !in repr
      requires origin.frame <= emittedHostFrames && transport.Valid() && transport.Covers(origin, host)
      requires forall k, c | 0 <= k < |input| && 0 <= c < STEREO :: processed[k][c]
                 == Sample(transport.Wet(origin, host), emittedHostFrames + k - transportLatency, c)
      requires enableMix == transport.MixAt(origin, emittedHostFrames) && targetMix == origin.target
      modifies `enableMix, `emittedHostFrames, stereo
      ensures Balanced()
      ensures Deinterleave(stereo[..], |input|) == transport.Emitted(origin, host, old(emittedHostFrames))
      ensures stereo[|input| * 2..] == old(stereo[|input| * 2..])
    {
      hide Connected;
      hide Streaming;
      hide Transport.Piped;
      hide Transport.Wet;
      hide Transport.MixAt;
      hide Balanced;
      StreamingIsValid(Popped(|host|));
      ConnectedIsValid();
      MixInto(stereo, input, processed);
      OutputIsMixed(transport, origin, host, emittedHostFrames, input, processed, Deinterleave(stereo[..], |input|));
      Advance(|input|);
    }

    method Advance(frames: nat)
      requires Streaming(Popped(|host|)) && inputScheduler.count < BLOCK_FRAMES && (enable ==> active)
      requires emittedHostFrames + frames == |host| && transport.Valid() && origin.frame <= |host|
      requires enableMix == transport.MixAt(origin, |host|) && targetMix == origin.target
      modifies `emittedHostFrames
      ensures Balanced()
    {
      hide Connected;
      hide Streaming;
      hide Transport.MixAt;
      StreamingIsValid(Popped(|host|));
      emittedHostFrames := emittedHostFrames + frames;
    }

    /** A finished fade-out stops the engine and empties it. */
    method Stop()
      requires Connected() && !enable
      modifies `active, `host, `blocks, `piped, `origin, `pipelineState, `emittedHostFrames, repr
      ensures Rings() == old(Rings()) && Balanced() && host == [] && !active
      ensures origin == Origin([], transport.pipeline.reset(old(pipelineState)), 0, enableMix, targetMix)
    {
      hide Connected;
      hide Balanced;
      ConnectedIsValid();
      active := false;
      ResetPipeline();
    }

    /** `Process` for an active engine, up to the point where a finished fade-out empties it. */
    method ProcessActive(stereo: array<real>, hostFrames: nat) returns (success: bool, reason: BypassReason)
      requires Balanced() && WithinClock(|host| + hostFrames)
      requires 0 < hostFrames <= maxBlock && hostFrames * 2 <= stereo.Length && stereo !in repr
      modifies `enableMix, `host, `blocks, `piped, `pipelineState, `emittedHostFrames, repr, stereo
      ensures Rings() == old(Rings()) && Connected() && transport.Covers(origin, host)
      ensures host == old(host) + Deinterleave(old(stereo[..]), hostFrames)
      ensures success <==> transport.Piped(origin, host).ok
      ensures !success ==> reason == ProcessFailure && stereo[..] == old(stereo[..])
      ensures success ==>
                && Balanced()
                && Deinterleave(stereo[..], hostFrames) == transport.Emitted(origin, host, old(|host|))
                && stereo[hostFrames * 2..] == old(stereo[hostFrames * 2..])
                && Mixes(transport, origin, host, old(stereo[..]), stereo[..], old(|host|), hostFrames)
                && enableMix == transport.MixAt(origin, |host|)
                && pipelineState == transport.Piped(origin, host).state
    {
      hide Connected;
      hide Streaming;
      hide Mixes;
      hide Transport.Piped;
      hide Transport.Wet;
      hide Transport.MixAt;
      StreamingIsValid(Popped(|host|));
      var input := ReadInput(stereo, hostFrames);
      var processed;
      success, reason, processed := Produce(input);
      if !success {
        return;
      }
      Deliver(stereo, input, processed);
      DrainedIsPiped(Popped(|host|));
      EmittedMixes(transport, origin, old(host), old(stereo[..]), stereo[..], hostFrames);
    }

    /** `Process` for an active engine. */
    method ProcessStream(stereo: array<real>, hostFrames: nat) returns (success: bool, reason: BypassReason)
      requires Balanced() && WithinClock(|host| + hostFrames) && active
      requires 0 < hostFrames <= maxBlock && hostFrames * 2 <= stereo.Length
      modifies `active, `enableMix, `host, `blocks, `piped, `origin, `pipelineState, `emittedHostFrames,
               repr, stereo
      ensures Rings() == old(Rings())
      ensures var stream := old(host) + Deinterleave(old(stereo[..]), hostFrames);
                && transport.Valid() && transport.Covers(old(origin), stream)
                && (success <==> transport.Piped(old(origin), stream).ok)
                && (!success ==> reason == ProcessFailure && stereo[..] == old(stereo[..]))
                && (success ==>
                      && reason == (if enable then NoBypass else Disabled)
                      && Deinterleave(stereo[..], hostFrames) == transport.Emitted(old(origin), stream, old(|host|))
                      && stereo[hostFrames * 2..] == old(stereo[hostFrames * 2..])
                      && Mixes(transport, old(origin), stream, old(stereo[..]), stereo[..], old(|host|), hostFrames)
                      && Balanced()
                      && active == (enable || transport.MixAt(old(origin), |stream|) > 0.0)
                      && host == (if active then stream else []) && (active ==> origin == old(origin))
                      && (!active ==> origin == Stopped(transport, old(origin), stream)))
    {
      hide Balanced;
      hide Connected;
      hide Transport.Emitted;
      hide Transport.Piped;
      hide Transport.Covers;
      hide Transport.Valid;
      hide Transport.MixAt;
      hide Deinterleave;
      hide Mixes;
      BalancedIsConnected();
      BalancedTarget();
      ConnectedIsValid();
      BufferIsForeign(stereo);
      success, reason := ProcessActive(stereo, hostFrames);
      if !success {
        return;
      }
      if !enable && enableMix <= 0.0 {
        Stop();
      }
      reason := if enable then NoBypass else Disabled;
    }

    /**
      Processes one host block in place. Nothing but the pipeline itself can make it fail: no queue
      overflows and the wet stream is never late. Each output frame depends on the host stream and
      the frame's absolute position only, not on how the stream was cut into blocks.
    */
    method Process(stereo: array<real>, hostFrames: nat) returns (success: bool, reason: BypassReason)
      requires prepared ==> Balanced() && WithinClock(|host| + hostFrames)
      requires hostFrames * 2 <= stereo.Length
      modifies `active, `enableMix, `host, `blocks, `piped, `origin, `pipelineState, `emittedHostFrames,
               repr, stereo
      ensures Rings() == old(Rings())
      ensures !Taken(hostFrames) ==>
                !success && reason == (if prepared then InvalidBlock else NotPrepared)
                && stereo[..] == old(stereo[..]) && (prepared ==> Balanced() && host == old(host))
      ensures Taken(hostFrames) && !old(active) ==>
                success && reason == Disabled && stereo[..] == old(stereo[..]) && Balanced() && host == old(host)
      ensures Taken(hostFrames) && old(active) ==>
                var stream := old(host) + Deinterleave(old(stereo[..]), hostFrames);
                && transport.Valid() && transport.Covers(old(origin), stream)
                && (success <==> transport.Piped(old(origin), stream).ok)
                && (!success ==> reason == ProcessFailure && stereo[..] == old(stereo[..]))
                && (success ==>
                      && reason == (if enable then NoBypass else Disabled)
                      && Deinterleave(stereo[..], hostFrames) == transport.Emitted(old(origin), stream, old(|host|))
                      && stereo[hostFrames * 2..] == old(stereo[hostFrames * 2..])
                      && Mixes(transport, old(origin), stream, old(stereo[..]), stereo[..], old(|host|), hostFrames)
                      && Balanced()
                      && active == (enable || transport.MixAt(old(origin), |stream|) > 0.0)
                      && host == (if active then stream else []) && (active ==> origin == old(origin))
                      && (!active ==> origin == Stopped(transport, old(origin), stream)))
    {
      hide Balanced;
      hide Connected;
      hide Transport.Emitted;
      hide Transport.Piped;
      hide Transport.Covers;
      hide Transport.Valid;
      hide Transport.MixAt;
      hide Stopped;
      hide Deinterleave;
      hide Mixes;
      if !prepared || hostFrames == 0 || hostFrames > maxBlock {
        return false, if prepared then InvalidBlock else NotPrepared;
      }
      BalancedIsConnected();
      if !active && !enable {
        return true, Disabled;
      }
      success, reason := ProcessStream(stereo, hostFrames);
    }

    predicate Taken(hostFrames: nat)
      reads `prepared, `maxBlock
    {
      prepared && 0 < hostFrames <= maxBlock
    }

    method ResetBuffers()
      requires Connected()
      modifies repr
      ensures Rings() == old(Rings()) && Connected()
      ensures inputResampler.Steady() && inputResampler.history == []
      ensures outputResampler.Steady() && outputResampler.history == []
      ensures inputScheduler.Contents() == [] == outputFifo.Contents() && inputScheduler.BlockAligned()
    {
      hide StreamingResampler.Valid;
      hide StreamingResampler.Steady;
      hide StreamingResampler.Accepts;
      hide PlanarBlockScheduler.Valid;
      hide PlanarBlockScheduler.Contents;
      hide Filter.Resampled;
      hide Filter.Ready;
      hide MaxOutputFrames;
      hide Transport.Latency;
      hide Transport.TransportLatency;
      inputResampler.IsSized();
      outputResampler.IsSized();
      inputResampler.Reset();
      outputResampler.Reset();
      inputScheduler.Reset();
      outputFifo.Reset();
    }

    /** Empties every buffer; the stream starts over with the current pipeline parameters. */
    method ResetPipeline()
      requires Connected()
      modifies `host, `blocks, `piped, `origin, `pipelineState, `emittedHostFrames, repr
      requires enable ==> active
      ensures Rings() == old(Rings()) && Balanced() && host == []
      ensures origin == Origin([], transport.pipeline.reset(old(pipelineState)), 0, enableMix, targetMix)
    {
      hide StreamingResampler.Valid;
      hide StreamingResampler.Steady;
      hide StreamingResampler.Accepts;
      hide PlanarBlockScheduler.Valid;
      hide PlanarBlockScheduler.Contents;
      hide Filter.Resampled;
      hide Filter.Ready;
      hide MaxOutputFrames;
      hide Connected;
      ConnectedIsValid();
      pipelineState := transport.pipeline.reset(pipelineState);
      emittedHostFrames := 0;
      host, blocks, piped := [], 0, [];
      origin := Origin([], pipelineState, 0, enableMix, targetMix);
      ResetBuffers();
      ConnectedIsValid();
      FlowStart(transport, origin);
    }

    /**
      New parameters, given as their effect on the pipeline's state. Enabling starts a fresh stream
      behind a full fade-in; anything else keeps every frame in flight and only starts a new ramp.
    */
    method ApplyParams(enabled: bool, retune: S -> S)
      requires prepared && Balanced()
      modifies `enable, `active, `enableMix, `targetMix, `host, `blocks, `piped, `origin,
               `pipelineState, `emittedHostFrames, repr
      ensures Balanced() && Rings() == old(Rings()) && enable == enabled
      ensures enabled && !old(enable) ==>
                active && host == []
                && origin == Origin([], transport.pipeline.reset(retune(old(pipelineState))), 0, 0.0, 1.0)
      ensures !(enabled && !old(enable)) ==>
                && host == old(host) && piped == old(piped) && enableMix == old(enableMix)
                && origin == Origin(piped, retune(old(pipelineState)), |host|, enableMix, targetMix)
                && active == (old(active) || enabled)
                && targetMix == if enabled then 1.0
                                else if old(enable) && old(active) then 0.0 else old(targetMix)
    {
      hide Balanced;
      BalancedIsConnected();
      var wasEnabled := enable;
      if enabled && !wasEnabled {
        Restart(retune);
      } else {
        Retarget(enabled, retune);
      }
    }

    /** Enabling: everything is emptied and the mix starts at zero. */
    method Restart(retune: S -> S)
      requires Connected()
      modifies `enable, `active, `enableMix, `targetMix, `host, `blocks, `piped, `origin,
               `pipelineState, `emittedHostFrames, repr
      ensures Balanced() && Rings() == old(Rings()) && enable && active && host == []
      ensures origin == Origin([], transport.pipeline.reset(retune(old(pipelineState))), 0, 0.0, 1.0)
    {
      hide Connected;
      hide Balanced;
      ConnectedIsValid();
      pipelineState := retune(pipelineState);
      enable, active := true, true;
      enableMix, targetMix := 0.0, 1.0;
      ResetPipeline();
    }

    method Retarget(enabled: bool, retune: S -> S)
      requires Balanced() && (enabled ==> enable)
      modifies `enable, `active, `targetMix, `blocks, `origin, `pipelineState
      ensures Balanced() && enable == enabled && active == (old(active) || enabled)
      ensures targetMix == if enabled then 1.0
                           else if old(enable) && old(active) then 0.0 else old(targetMix)
      ensures origin == Origin(piped, retune(old(pipelineState)), |host|, enableMix, targetMix)
    {
      hide Streaming;
      hide Connected;
      BalancedIsConnected();
      ConnectedIsValid();
      StreamingIsValid(Popped(|host|));
      var target := if enabled then 1.0 else if enable && active then 0.0 else targetMix;
      active := active || enabled;
      enable, targetMix := enabled, target;
      Rebase(retune(pipelineState));
    }

    /** From here on the stream is accounted for from the new pipeline state. */
    method Rebase(retuned: S)
      requires Streaming(Popped(|host|))
      modifies `blocks, `origin, `pipelineState
      ensures Streaming(Popped(|host|)) && Connected()
      ensures origin == Origin(piped, retuned, |host|, enableMix, targetMix)
    {
      hide Flow;
      hide Connected;
      StreamingIsValid(Popped(|host|));
      ConnectedIsValid();
      FlowRetune(transport, origin, host, blocks, piped, pipelineState, inputScheduler.Contents(),
                 outputFifo.Contents(), Popped(|host|), retuned, enableMix, targetMix);
      pipelineState := retuned;
      blocks, origin := 0, Origin(piped, retuned, |host|, enableMix, targetMix);
    }

    /** Back to the state right after preparation, with the ramp already settled. */
    method Reset()
      requires prepared ==> Connected()
      modifies `active, `enableMix, `targetMix, `host, `blocks, `piped, `origin, `pipelineState,
               `emittedHostFrames, repr
      ensures prepared == old(prepared) && enable == old(enable)
      ensures prepared ==> Balanced() && Rings() == old(Rings()) && host == [] && active == enable
      ensures prepared ==>
                var mix := if enable then 1.0 else 0.0;
                origin == Origin([], transport.pipeline.reset(old(pipelineState)), 0, mix, mix)
      ensures !prepared ==>
                unchanged(`active, `enableMix, `targetMix, `host, `blocks, `piped, `origin, `pipelineState,
                          `emittedHostFrames)
    {
      hide Connected;
      hide Balanced;
      if !prepared {
        return;
      }
      ConnectedIsValid();
      active := enable;
      enableMix := if enable then 1.0 else 0.0;
      targetMix := enableMix;
      ResetPipeline();
    }
  }

  /** Where a finished fade-out leaves the engine: nothing in flight, and the pipeline reset. */
  ghost function Stopped<S(!new)>(t: Transport<S>, o: Origin<S>, stream: seq<Frame>): Origin<S>
    requires t.Valid() && t.Covers(o, stream)
  {
    Origin([], t.pipeline.reset(t.Piped(o, stream).state), 0, t.MixAt(o, |stream|), o.target)
  }

  lemma FlowStart<S(!new)>(t: Transport<S>, o: Origin<S>)
    requires t.Valid() && o.prefix == [] && o.frame == 0
    ensures Flow(t, o, [], 0, [], o.state, [], [], 0)
  {
  }

  lemma OutputIsMixed<S(!new)>(t: Transport<S>, o: Origin<S>, host: seq<Frame>, from: nat,
                               input: seq<Frame>, processed: seq<Frame>, output: seq<Frame>)
    requires t.Valid() && t.Covers(o, host) && from <= |host| && input == host[from..]
    requires |processed| == |input| == |output| && IsStereo(processed)
    requires forall k, c | 0 <= k < |input| && 0 <= c < STEREO ::
               processed[k][c] == Sample(t.Wet(o, host), from + k - t.TransportLatency(), c)
    requires forall k | 0 <= k < |input| :: output[k] == Mixed(input[k], processed[k], t.MixAt(o, from + k + 1))
    ensures output == t.Emitted(o, host, from)
  {
    hide Transport.Wet;
    forall k | 0 <= k < |input|
      ensures output[k] == t.Output(o, host, from + k)
    {
      assert processed[k][0] == Sample(t.Wet(o, host), from + k - t.TransportLatency(), 0);
      assert processed[k][1] == Sample(t.Wet(o, host), from + k - t.TransportLatency(), 1);
    }
  }

  /** The stereo transport between a host rate and 96 kHz. */
  function Stereo<S(!new)>(hostRate: nat, pipeline: Pipeline<S>, upTable: seq<real>, downTable: seq<real>)
    : (t: Transport<S>)
    ensures (pipeline.Lawful() && |upTable| == |downTable| == PHASE_COUNT * TAP_COUNT
             && MIN_HOST_RATE <= hostRate <= MAX_HOST_RATE) ==> t.Valid()
  {
    Transport(Filter(hostRate, INTERNAL_RATE, STEREO, upTable),
              Filter(INTERNAL_RATE, hostRate, STEREO, downTable), pipeline)
  }

  /**
    The latency must fit its 32-bit counter, and the output queue must come out at least one block
    long: a tiny host block at a low host rate is refused.
  */
  ghost predicate Sizable<S(!new)>(t: Transport<S>, maxHostBlock: nat)
    requires t.Valid()
  {
    && t.Latency() <= U32_MAX
    && maxHostBlock * 2 + MaxOutputFrames(t.down, BLOCK_FRAMES) * 4 + t.Latency() >= BLOCK_FRAMES
  }

  /** Such a configuration: 8000 Hz and a pipeline of 224 frames, which is what binaural rendering with headphone
      equalization has (64 frames each, and 96 for the limiter). Blocks of at most 20 frames are refused, 21 are not. */
  lemma TinyBlocksAreRefused<S(!new)>(t: Transport<S>, maxHostBlock: nat)
    requires t.Valid() && t.up.inputRate == 8000 && t.pipeline.latency == 224
    ensures Sizable(t, maxHostBlock) <==> maxHostBlock > 20
  {
    assert MaxOutputFrames(t.down, BLOCK_FRAMES) == 34;
    assert t.TransportLatency() == 60;
    assert t.Latency() == 79;
  }

  lemma ScratchIsSmall(f: Filter, frames: nat)
    requires f.Valid() && frames <= MAX_HOST_BLOCK
    requires MIN_HOST_RATE <= f.inputRate <= MAX_HOST_RATE && MIN_HOST_RATE <= f.outputRate <= MAX_HOST_RATE
    ensures 0 < MaxOutputFrames(f, frames) <= 500_000
  {
    MulMonotone(f.outputRate, MAX_HOST_RATE, frames + TAP_COUNT * 2);
    DivBelow(U64_MAX, f.outputRate, frames + TAP_COUNT * 2);
    DivBelow((frames + TAP_COUNT * 2) * f.outputRate, f.inputRate, 499_990);
    MulMonotone(MIN_HOST_RATE, f.inputRate, 499_990);
  }

  function Mixed(dry: Frame, wet: Frame, mix: real): Frame
    requires |dry| == STEREO && |wet| == STEREO
  {
    [Blend(dry[0], wet[0], mix), Blend(dry[1], wet[1], mix)]
  }

  lemma WetIsStereo<S(!new)>(t: Transport<S>, o: Origin<S>, host: seq<Frame>)
    requires t.Valid() && t.Covers(o, host)
    ensures IsStereo(t.Wet(o, host))
  {
  }
}
