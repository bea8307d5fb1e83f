# ViPER4Android IEM and daemon verification

Dafny models of the stateful cores of the repository, with proofs of what they keep over whole runs.
`dafny verify dfyconfig.toml` checks everything.

The project has three parts.

**The in-ear-monitor audio path.** Audio arrives in host blocks of any size, is resampled to 96 kHz, cut into blocks
of 256 frames, processed, resampled back and queued. `Resampling.dfy` gives the batch definition of the rational-rate
FIR resampler and `StreamingResampler.dfy` the ring-buffer form that refines it. `PlanarBlockScheduler.dfy` is the
queue. `IemTransport.dfy` defines what the whole chain puts out as a function of the host stream, and proves the
latency balance; `IemEngine.dfy` is the engine, proved to put out exactly that and never to run dry or overflow.
`Convolution.dfy` and `PartitionedMatrixConvolver.dfy` show that the partitioned overlap-save convolver is a direct FIR
filter one partition late. `HaloOverlapAdd.dfy` and `HaloEncoder.dfy` do the same for the overlap-add ring.
`GrainPool.dfy` is the granular encoder's pool. `Arithmetic.dfy` and `Rings.dfy` hold what these share.

**The lock-free handoffs between the control thread and the audio thread.** `ParameterMailbox.dfy` and
`DspGraphSlots.dfy` are step machines of two actors. Every atomic load, store and compare-and-swap is one step, every
copied word is one step, and preparing or processing a graph takes any number of steps. Atomics are sequentially
consistent in the model.

**The snapshot protocol between daemon and driver.** `Bytes.dfy`, `Parsing.dfy` and `Crc32.dfy` are the ground for the
codecs in `ViperDaemonProtocol.dfy` (frames), `SnapshotSchema.dfy`, `ParameterStream.dfy` and `SnapshotCommand.dfy`.
`SnapshotApplyController.dfy` stages and commits in the driver. `SnapshotDelivery.dfy` puts sender, codecs, fan-out and
controllers together into one end-to-end theorem. `ApplyHandshake.dfy` runs the daemon's control loop and the driver's
controllers together over a channel that loses answers, with contexts coming and going and the App's commands relayed in
between: a transfer that is reported accepted was committed, with exactly that snapshot, in every context there was.
`AppStaging.dfy` is the daemon's copy of what the App streams, which it stores when the driver has accepted it;
`AppMixup.dfy` shows when what is stored is not what was taken. `StuckStaging.dfy` says when a transfer leaves a context
staging and what clears it. `SnapshotStore.dfy` is the crash model of the snapshot files and of the directory they are in.
`SessionRegistry.dfy` is the daemon's view of the contexts, `RescanProtocol.dfy` what the event server makes of it when
events are lost, and `OwnerSupervisor.dfy` its view of the owner process.

Results about the repository that a reader may not expect:

- The engine refuses some configurations inside its documented ranges: if the output queue it computes has fewer than
  256 frames, the queue cannot be prepared (`IemEngines.IemEngine.PrepareBuffers`, the condition is `Sizable`). At
  8000 Hz with a pipeline of 224 frames these are exactly the host blocks of at most 20 frames
  (`IemEngines.TinyBlocksAreRefused`).
- The daemon sends no abort of its own. A snapshot sent to idle contexts leaves none of them staging if and only if no
  context is on its route, or its begin does not arrive, or all are on its route, the answer to the begin is heard and
  everything up to the commit arrives (`StuckStaging.IdleAgainIff`). Two ways of getting stuck: a second context that
  registers on an existing connection is not told the route (daemon/DaemonRuntime.cpp:179-196), so that the next snapshot
  leaves the first one staging (`StuckStaging.StuckRunSticks`); and a chunk or the commit cannot be sent
  (`StuckStaging.FailedSendSticks`). A begin of the App is another (`StuckStaging.RelayedBeginStages`).
- A staging context stays so, and every snapshot of the daemon is refused, if and only if it is not unregistered and no
  abort, commit or refused chunk of the App reaches it (`StuckStaging.StagingIsForGood`). The daemon alone never clears it
  (`StuckStaging.OnlyAppClears`); an abort or a commit of the App clears every context (`StuckStaging.AppClearsAll`).
- What the daemon stores of the App's snapshots is not always what the driver took: when a begin cannot be sent the daemon
  refuses it but keeps its copy (daemon/DaemonRuntime.cpp:606-622), and stores that when a later commit is accepted for
  something else (`AppMixups.MixupIff`); likewise when a snapshot of the daemon's own comes between
  (`AppMixups.RestoreMixes`). Outside these two cases it is exactly what was taken (`ApplyHandshake.StoredWasTaken`).
- A graph can be prepared while a block still holds it as the previous one if resetting the effect comes during a block
  (src/ViperContext.cpp:549-568); it cannot if resets come between blocks (`DspGraphSlots.PreparesUnusedIff`).
- The first successful commit of a route can be lost in a crash, since the directory it creates is not synced in its
  parent (`SnapshotStore.FirstCommitCanBeLost`). `SnapshotStore.CurrentSurvives` gives the exact condition.
- The server trusts the end of a replay, but responses can be lost before it (src/DriverDaemonBridge.cpp:227-229). After
  a gap such a context is erased although the driver has it (`RescanProtocol.LostResponseErases`); and once none is known
  its events are ignored, so that no gap is seen and no rescan asked for (`RescanProtocol.NothingComesBack`). A run that
  ends so is `RescanProtocol.LossyRunLoses`. A gap in the middle of a replay has the same effect until the next replay
  (`RescanProtocol.FirstTerminatorErases`).
- The header says that entries are marked stale on a reconnect (daemon/SessionRegistry.h:74-76); the code does it only on
  a gap. When the audio server starts again under the same boot id, with ids and numbers from 1, no gap is seen and the
  old contexts stay (`RescanProtocol.RestartGoesUnnoticed`, and the run `RescanProtocol.RestartKeepsOld`).
- A process that the supervisor did not spawn can be killed as if it had, although it must not be
  (daemon/OwnerSupervisor.cpp:98-99): it only has to connect while a spawned one is awaited
  (`OwnerSupervision.StrangerIsKilled`). `OwnerSupervision.KillsOwnIff` gives the exact condition.
- A snapshot is not re-encoded to the same bytes when its flag bytes or its reserved word are not the ones the encoder
  writes; `SnapshotSchema.EncodeDecode` gives the exact condition, and `SnapshotSchema.AcceptsOtherForms` such bytes for
  every valid snapshot. Likewise for the padding of a cleared route (`SnapshotCommand.EncodeDecode`,
  `SnapshotCommand.PaddingIsIgnored`).

## Model

| member | source | states |
|---|---|---|
| Resampling.PhaseIsFraction | IEMDSP/src/StreamingResampler.cpp:205-216 | centre and phase are the position of the output frame in the input, in 1024ths of a frame rounded down |
| Resampling.OutputIsDot | IEMDSP/src/StreamingResampler.cpp:205-227 | an output sample is the sum over 64 taps of input sample times coefficient, in the table row of that phase |
| Resampling.ImpulsePicks | IEMDSP/src/StreamingResampler.cpp:205-227 | a table that is 1.0 in one place lets exactly one input frame through, in the same channel, and only to the output frames with that phase |
| Resampling.EqualRatesPass | IEMDSP/src/StreamingResampler.cpp:166-241 | at equal rates, with a table whose first row picks the centre, the output is the input |
| Resampling.ReadyIff | IEMDSP/src/StreamingResampler.cpp:190-198 | an output frame can be emitted exactly when the input has reached its rightmost tap |
| Resampling.ReadyBounds | IEMDSP/src/StreamingResampler.cpp:190-198 | the number of frames ready inverts the rate ratio up to less than one output frame, both bounds |
| Resampling.ReadyGrowth | IEMDSP/src/StreamingResampler.cpp:243-257 | no call completes more frames than the announced maximum, wherever in the stream it falls |
| Resampling.ResampledIsPrefix | IEMDSP/src/StreamingResampler.cpp:166-241 | resampling is causal: more input only appends output |
| Resampling.CenterWhenDrained | IEMDSP/src/StreamingResampler.cpp:316-330 | a drained resampler stands within its right reach of the end of the input |
| StreamingResampling.StreamingResampler.Prepare | IEMDSP/src/StreamingResampler.cpp:114-164 | the exact set of accepted configurations; a refused one changes nothing |
| StreamingResampling.StreamingResampler.Process | IEMDSP/src/StreamingResampler.cpp:166-241 | refines the batch definition for every split of the input: the next ready frames of the batch result, as many as fit, whose samples are those sums (`Resampling.OutputIsDot`); fails only past 64 bits; when kept drained it never refuses and drains again |
| StreamingResampling.StreamingResampler.TakeInput | IEMDSP/src/StreamingResampler.cpp:172-189 | takes the input exactly when it fits after trimming, and a drained resampler always has room |
| StreamingResampling.StreamingResampler.FilterFrame | IEMDSP/src/StreamingResampler.cpp:198-226 | the ring-based dot product equals the one over the whole history, in the table row that `Resampling.PhaseIsFraction` describes |
| StreamingResampling.StreamingResampler.DiscardConsumedInput | IEMDSP/src/StreamingResampler.cpp:316-330 | keeps exactly what is still needed |
| StreamingResampling.StreamingResampler.InputSampleIsHistory | IEMDSP/src/StreamingResampler.cpp:332-344 | every tap of the frame being produced is still in the ring, with zeros only before the first input frame |
| StreamingResampling.CapacitySuffices | IEMDSP/src/StreamingResampler.cpp:243-257 | the announced output capacity always lets a call drain the resampler |
| StreamingResampling.KeptWhenDrained | IEMDSP/src/StreamingResampler.cpp:316-330 | at most 64 frames are kept between calls |
| BlockScheduling.PlanarBlockScheduler.Prepare | IEMDSP/src/PlanarBlockScheduler.cpp:10-31 | accepted sizes, and a capacity rounded up to whole blocks |
| BlockScheduling.PlanarBlockScheduler.Push | IEMDSP/src/PlanarBlockScheduler.cpp:33-57 | appends all or, when it does not fit, nothing to the queue, wrap-around included |
| BlockScheduling.PlanarBlockScheduler.Pop | IEMDSP/src/PlanarBlockScheduler.cpp:59-81 | removes the oldest frames in order, or nothing |
| BlockScheduling.PlanarBlockScheduler.ChannelBlock | IEMDSP/src/PlanarBlockScheduler.cpp:83-86 | the contiguous span handed out is in bounds and is the first block of the queue |
| BlockScheduling.PlanarBlockScheduler.ConsumeBlock | IEMDSP/src/PlanarBlockScheduler.cpp:88-92 | drops one block and keeps the read index at a block boundary |
| IemTransport.WetCount | IEMDSP/src/IemEngine.cpp:287-319 | after any number of host frames, both rate conversions and the block cut have produced at least that many minus the latency, and never more |
| IemTransport.Balance | IEMDSP/src/IemEngine.cpp:287-319 | the integer balance behind it, with 32 + ceil(288 H / 96000) + 4 |
| IemTransport.Transport.NeverDry | IEMDSP/src/IemEngine.cpp:287-319 | the transport latency is enough at every host rate |
| IemTransport.Transport.WetIsPrefix | IEMDSP/src/IemEngine.cpp:145-202 | more host input only appends to the processed stream |
| IemTransport.Transport.OutputIsCausal | IEMDSP/src/IemEngine.cpp:204-237 | an emitted frame never depends on later input |
| IemTransport.Transport.EmittedExtends | IEMDSP/src/IemEngine.cpp:204-237 | the output of two stretches is the output of the whole |
| IemTransport.Transport.CallsIgnoreBoundaries | IEMDSP/src/IemEngine.cpp:204-237 | the concatenated output is the same for every partition of the host stream into blocks |
| IemTransport.Transport.RampIsLinear | IEMDSP/src/IemEngine.cpp:343-351 | the fade-in is a straight line in the absolute frame number |
| IemTransport.Transport.FadeIsLinear | IEMDSP/src/IemEngine.cpp:343-351 | and the fade-out |
| IemTransport.Transport.FirstFrames | IEMDSP/src/IemEngine.cpp:204-216 | a stream started with the effect off hands back the input itself until the full latency has passed; started with it on, silence until the transport latency has passed |
| IemTransport.Transport.OutputIsMix | IEMDSP/src/IemEngine.cpp:204-236 | every output sample moves from the input to the processed stream of the same channel, delayed by the transport latency, by the mix; fully mixed in it is the processed sample |
| IemTransport.Transport.MixStaysUp | IEMDSP/src/IemEngine.cpp:343-351 | once fully mixed in with the effect on, it stays so |
| IemTransport.Transport.LatencyIs | IEMDSP/src/IemEngine.cpp:287-300 | both latencies, by inequalities over the rates |
| IemTransport.Transport.IdentityDelays | IEMDSP/src/IemEngine.cpp:75-237 | at 96 kHz with centre-tap tables and a pipeline that passes its blocks on, the output is the input, exactly 324 frames late |
| IemTransport.Pipeline.RunThreads | IEMDSP/src/IemEngine.cpp:161-202 | each block is processed in the state the one before left, and they are joined in order |
| IemTransport.ClockSuffices | IEMDSP/src/StreamingResampler.cpp:190-241 | within the host clock neither resampler's counters leave 64 bits |
| IemEngines.IemEngine.Prepare | IEMDSP/src/IemEngine.cpp:25-55 | the exact set of accepted configurations and the state they lead to |
| IemEngines.IemEngine.PrepareBuffers | IEMDSP/src/IemEngine.cpp:257-327 | the buffers are connected exactly when the configuration is sizable |
| IemEngines.TinyBlocksAreRefused | IEMDSP/src/IemEngine.cpp:287-327 | a refused configuration inside the documented ranges, and exactly which block sizes are refused there |
| IemEngines.IemEngine.Process | IEMDSP/src/IemEngine.cpp:75-247 | every outcome: refused calls leave the samples alone; an active call fails only if the pipeline fails, never by overflow or underflow, and otherwise writes the transport's output for its stretch of the stream, each sample mixed from dry and processed as said of single samples (`Mixes`); it stays active exactly while the effect is on or the fade-out not over, and ends emptied |
| IemEngines.EmittedMixes | IEMDSP/src/IemEngine.cpp:204-237 | over a whole call: sample by sample in the interleaved buffer, all processed signal when fully mixed in |
| IemEngines.IemEngine.PushInput | IEMDSP/src/IemEngine.cpp:145-159 | the resampled input always fits the input queue |
| IemEngines.IemEngine.RunBlocks | IEMDSP/src/IemEngine.cpp:161-202 | the block loop runs the pipeline over every complete block, and fails exactly when the pipeline does |
| IemEngines.IemEngine.Collect | IEMDSP/src/IemEngine.cpp:204-227 | the leading zeros and the frames popped are the processed stream delayed by the transport latency; never an underflow |
| IemEngines.IemEngine.Deliver | IEMDSP/src/IemEngine.cpp:229-237 | the mixing loop writes the transport's output, which `Transport.OutputIsMix` describes |
| IemEngines.IemEngine.ApplyParams | IEMDSP/src/IemEngine.cpp:57-73 | enabling starts a fresh stream; any other change keeps every frame in flight |
| IemEngines.IemEngine.Reset | IEMDSP/src/IemEngine.cpp:249-255 | back to an empty stream, fully mixed in or out as the effect is on or off, the balance restored |
| IemEngines.FlowFits | IEMDSP/src/IemEngine.cpp:287-319 | the next block's output still fits the output queue |
| IemEngines.FlowBlock | IEMDSP/src/IemEngine.cpp:161-202 | one block keeps the account of every stage in step |
| IemEngines.FlowRetune | IEMDSP/src/IemEngine.cpp:57-73 | a parameter change loses nothing in flight |
| Convolution.TimeDomainIsLawful | IEMDSP/src/PartitionedMatrixConvolver.cpp:162-194 | the law assumed of the FFT library is satisfiable |
| Convolution.UpperHalf | IEMDSP/src/PartitionedMatrixConvolver.cpp:162-194 | in the upper half of the window the circular product does not wrap |
| MatrixConvolving.RemembersNext | IEMDSP/src/PartitionedMatrixConvolver.cpp:162-194 | storing the newest window over the oldest keeps the modular delay line right |
| MatrixConvolving.AccumulatesSegment | IEMDSP/src/PartitionedMatrixConvolver.cpp:162-194 | adding one segment's product extends the partial filter by that segment |
| MatrixConvolving.PartitionedMatrixConvolver.Prepare | IEMDSP/src/PartitionedMatrixConvolver.cpp:62-134 | accepted configurations, and kernels that are those of the response table |
| MatrixConvolving.PartitionedMatrixConvolver.ProcessBlock | IEMDSP/src/PartitionedMatrixConvolver.cpp:162-194 | a full input block becomes the next block of the direct filter's output |
| MatrixConvolving.PartitionedMatrixConvolver.Process | IEMDSP/src/PartitionedMatrixConvolver.cpp:136-160 | for every response length, channel count and split into calls, sample o of output frame t is the double sum over channels c and coefficients k of input sample t - partition - k of c times entry (o * channels + c) * frames + k of the table prepared |
| MatrixConvolving.DelayedIsConvolved | IEMDSP/src/PartitionedMatrixConvolver.cpp:115-194 | the delayed direct filter of the kernel rows is that double sum over the flat table |
| MatrixConvolving.ImpulseReaches | IEMDSP/src/PartitionedMatrixConvolver.cpp:115-194 | one coefficient of the flat table reaches one output, from one channel, at one delay |
| HaloOverlapAdd.Renderer.IdealIsCausal | IEMDSP/src/HaloEncoder.cpp:148-170 | no output frame changes once the input has moved past it |
| HaloOverlapAdd.Renderer.IdealIsTwoFrames | IEMDSP/src/HaloEncoder.cpp:148-170 | exactly the windows with 1024 + 512 k <= j < 2048 + 512 k contribute to frame j |
| HaloOverlapAdd.Renderer.IdealStartsSilent | IEMDSP/src/HaloEncoder.cpp:172-211 | nothing comes out before the reported latency |
| HaloOverlapAdd.Renderer.IdealIsRendered | IEMDSP/src/HaloEncoder.cpp:148-170 | an output sample is the sum of the two rendered frames at their offsets |
| HaloOverlapAdd.Renderer.RenderingThreads | IEMDSP/src/HaloEncoder.cpp:148-170 | window k starts at input frame 512 k and is rendered in the state the one before left |
| HaloOverlapAdd.Renderer.IdentityDoubles | IEMDSP/src/HaloEncoder.cpp:148-211 | with windows passed on as they are, every input sample comes out 1024 frames later, once for each window it is in |
| HaloEncoding.HaloEncoder.Analyze | IEMDSP/src/HaloStft.cpp:185-217 | the sliding-window loop renders every completed frame, whatever the split |
| HaloEncoding.HaloEncoder.RenderFrame | IEMDSP/src/HaloEncoder.cpp:148-170 | a synthesis frame lands at its absolute position, on nothing already read |
| HaloEncoding.HaloEncoder.ProcessBed | IEMDSP/src/HaloEncoder.cpp:172-211 | the ring equals ideal overlap-add for every split of the input into calls |
| GrainPools.ListsArePermutation | IEMDSP/src/GranularEncoder.cpp:59-77 | the two lists together hold every grain number once |
| GrainPools.SpawnKeepsPool | IEMDSP/src/GranularEncoder.cpp:308-386 | spawning keeps lists and active flags in agreement |
| GrainPools.RetireKeepsPool | IEMDSP/src/GranularEncoder.cpp:151-172 | so does returning a grain by swapping in the last one |
| GrainPools.SoundsExactly | IEMDSP/src/Grain.cpp:31-62 | a grain is rendered exactly as many times as it was started for, and is silent after |
| GrainPools.Clock.NextIsDue | IEMDSP/src/GranularEncoder.cpp:151-157 | after a grain drawn with distance d the next is due d + 1 frames later and not before |
| GrainPools.GranularEncoder.SpawnGrain | IEMDSP/src/GranularEncoder.cpp:308-386 | fails exactly when all 512 grains are active |
| GrainPools.GranularEncoder.RenderAll | IEMDSP/src/GranularEncoder.cpp:155-172 | each active grain is rendered once in a frame although the list shrinks under the loop |
| GrainPools.GranularEncoder.ProcessFrame | IEMDSP/src/GranularEncoder.cpp:146-172 | when a grain is due and one is silent exactly that one starts; all active ones are rendered; failed spawns are counted |
| GrainPools.GranularEncoder.Process | IEMDSP/src/GranularEncoder.cpp:112-193 | every frame of a block is such a step, due as the clock says |
| GrainPools.GranularEncoder.Reset | IEMDSP/src/GranularEncoder.cpp:59-77 | all grains free and silent |
| ParameterMailbox.FindFreeSlot | src/ParameterMailbox.cpp:5-16 | the search finds the slot that is neither published nor being read |
| ParameterMailbox.RunKeepsInv | src/ParameterMailbox.cpp:5-40 | the invariant of every interleaving |
| ParameterMailbox.NeverTorn | src/ParameterMailbox.cpp:18-40 | the slot being copied out is never being written |
| ParameterMailbox.Linearizable | src/ParameterMailbox.cpp:18-40 | a read takes the newest publication at its re-check, within the call; each retry is paid for by a publication made meanwhile |
| ParameterMailbox.TakenIncrease | src/ParameterMailbox.cpp:18-40 | consumed generations strictly increase |
| ParameterMailbox.WriterAlwaysFindsASlot | src/ParameterMailbox.cpp:5-16 | the writer never waits and its slot is in range |
| ParameterMailbox.QuietPublish | src/ParameterMailbox.cpp:5-16 | an undisturbed publication puts its words, whole, where readers look, under the next generation |
| ParameterMailbox.QuietRead | src/ParameterMailbox.cpp:18-40 | an undisturbed read gives the words last published and their generation, or nothing if it has seen that one |
| ParameterMailbox.PublishedIsRead | src/ParameterMailbox.cpp:5-40 | the two together: what is published is what is read next |
| DspGraphSlots.RunKeepsInv | src/DspGraphSlots.cpp:26-137 | the invariant of every interleaving |
| DspGraphSlots.FindsIff | src/DspGraphSlots.cpp:8-22 | the compare-and-swaps of the machine, on packed words, compare exactly the three indices |
| DspGraphSlots.NeverPreparedInUse | src/DspGraphSlots.cpp:26-67 | the graph being prepared is neither active nor held as previous by the audio thread, when resets come between blocks |
| DspGraphSlots.PreparesUnusedIff | src/ViperContext.cpp:549-568 | and in every interleaving if and only if they do |
| DspGraphSlots.HoldsWhatItLoaded | src/ViperContext.cpp:990-1084 | nothing is released under the audio thread |
| DspGraphSlots.SlotsStayApart | src/DspGraphSlots.cpp:44-137 | pending and previous are never both set, and no two roles share a graph |
| DspGraphSlots.PublishNeverLost | src/DspGraphSlots.cpp:44-67 | once preparation started the publishing compare-and-swap cannot fail |
| DspGraphSlots.GenerationsIncrease | src/DspGraphSlots.cpp:86-117 | every swap activates a strictly newer graph |
| DspGraphSlots.QuietPending | src/DspGraphSlots.cpp:44-67 | an undisturbed preparation stages its graph in the other slot, exactly when one is active, none is pending or held and it is newer; otherwise nothing changes |
| DspGraphSlots.QuietRetract | src/DspGraphSlots.cpp:69-84 | an undisturbed retraction unsets the pending graph and nothing else |
| DspGraphSlots.FadesIff | src/ViperContext.cpp:990-1003 | when a block reads its parameters the graph swapped out is still there to fade from exactly if it has the same sample rate |
| DspGraphSlots.QuietBlock | src/ViperContext.cpp:990-1084 | an undisturbed block makes the pending graph active, and holds none when its fade is over |
| DspGraphSlots.HandsOver | src/DspGraphSlots.cpp:26-137 | graphs can be handed over for ever: one prepared between two such blocks is active after the next |
| Crc32s.Crc32 | protocol/ViperDaemonProtocol.cpp:72-82 | the nested loops compute the checksum function |
| Crc32s.AddBytesInjective | protocol/ViperDaemonProtocol.cpp:72-82 | different states stay different under the same bytes |
| Crc32s.BurstIsWord | protocol/ViperDaemonProtocol.cpp:72-82 | up to four bytes enter the state as one word |
| Crc32s.DetectsBurst | protocol/ViperDaemonProtocol.cpp:72-82 | equal-length messages that differ only within four consecutive bytes have different checksums |
| Crc32s.Residue | protocol/ViperDaemonProtocol.cpp:72-82 | a message followed by its own checksum, low byte first, always leaves 0xDEBB20E3 |
| Crc32s.CheckValue | protocol/ViperDaemonProtocol.cpp:72-82 | the checksum of "123456789" is 0xCBF43926 |
| Bytes.PutGetFields | protocol/SnapshotSchema.cpp:20-61 | fields read off the wire are written back as they were |
| Bytes.GetPutFields | protocol/SnapshotSchema.cpp:20-61 | fields written are read back |
| Bytes.ReadU16Is | protocol/SnapshotSchema.cpp:36-41 | two bytes, the lower one first |
| Bytes.ReadU32Is | protocol/SnapshotSchema.cpp:43-50 | four bytes, the lowest first |
| Bytes.ReadU64Is | protocol/SnapshotSchema.cpp:52-59 | eight bytes, the lowest first |
| Parsing.ParsesMany | protocol/SnapshotSchema.cpp:279-311 | a run of items is parsed exactly when the wire forms of acceptable items are there |
| Parsing.TakeMany | protocol/ParameterStream.cpp:194-223 | the decoders' loop computes that parse |
| Parsing.AppendMany | protocol/ParameterStream.cpp:133-142 | the encoders' loop writes the items in order |
| ViperDaemonProtocol.DecodeEncode | protocol/ViperDaemonProtocol.cpp:84-184 | a decoded frame is the encoded one |
| ViperDaemonProtocol.EncodeDecode | protocol/ViperDaemonProtocol.cpp:84-184 | re-encoding an accepted frame gives the same bytes |
| ViperDaemonProtocol.AcceptsExactlyEncodings | protocol/ViperDaemonProtocol.cpp:123-184 | the decoder accepts exactly the encoder's image |
| ViperDaemonProtocol.RejectsBurst | protocol/ViperDaemonProtocol.cpp:123-184 | damage confined to four consecutive payload bytes is always refused |
| ViperDaemonProtocol.FrameLayout | protocol/ViperDaemonProtocol.cpp:84-121 | every field of an encoded frame at its offset, the checksum among them |
| ViperDaemonProtocol.EncodesIff | protocol/ViperDaemonProtocol.cpp:84-106 | exactly what can be sent, in numbers |
| SnapshotSchema.ValidateSnapshot | protocol/SnapshotSchema.cpp:104-177 | the validator with its two sets gives the first failing check |
| SnapshotSchema.ValidationIsValid | protocol/SnapshotSchema.cpp:104-177 | it passes exactly the valid snapshots |
| SnapshotSchema.ValidMeans | protocol/SnapshotSchema.cpp:84-177 | what a valid snapshot is, field by field and in numbers |
| SnapshotSchema.EncodesExactlyValid | protocol/SnapshotSchema.cpp:179-230 | the encoder refuses exactly the invalid ones, writes at most 2,637,968 bytes, and its size guard never fires |
| SnapshotSchema.DecodesWireForms | protocol/SnapshotSchema.cpp:232-320 | the decoder yields a snapshot exactly on its wire forms |
| SnapshotSchema.DecodedIsPrefixFree | protocol/SnapshotSchema.cpp:232-320 | no accepted snapshot is the front of another |
| SnapshotSchema.DecodeEncode | protocol/SnapshotSchema.cpp:179-320 | decoding an encoded snapshot gives it back |
| SnapshotSchema.EncodeDecode | protocol/SnapshotSchema.cpp:179-320 | re-encoding decodes to the same value; to the same bytes if and only if flags and reserved word are canonical |
| SnapshotSchema.AcceptsOtherForms | protocol/SnapshotSchema.cpp:232-320 | for every valid snapshot, bytes that decode to it and are not what the encoder writes |
| SnapshotSchema.SampleHasOtherForms | protocol/SnapshotSchema.cpp:232-320 | this at concrete snapshots: flag byte 2, and reserved word 1 |
| SnapshotSchema.SnapshotLayout | protocol/SnapshotSchema.cpp:179-216 | every field of an encoded snapshot at its offset |
| SnapshotSchema.ResourceLies | protocol/SnapshotSchema.cpp:216-226 | every field of an encoded resource at its offset |
| SnapshotSchema.EncodeSnapshot | protocol/SnapshotSchema.cpp:179-230 | the appending encoder computes the encoding |
| SnapshotSchema.DecodeSnapshot | protocol/SnapshotSchema.cpp:232-320 | the offset-driven decoder computes the decoding, errors included |
| ParameterStream.DecodesExactlyEncodings | protocol/ParameterStream.cpp:103-230 | both round trips in one: the decoder yields records exactly on their encoding, or none on no bytes |
| ParameterStream.DecodedRecordsAreComplete | protocol/ParameterStream.cpp:55-101 | no decoded record makes the driver read past its payload: each float of each bank it reads lies in the payload, and every payload byte is one it reads |
| ParameterStream.ChecksWhatIsRead | src/DspResources.cpp:107-127 | a record passes the check if and only if its payload is exactly the floats the driver reads from it, both banks of coefficients included, and at most 8192 bytes |
| ParameterStream.EncodesIff | protocol/ParameterStream.cpp:103-123 | a stream is encoded exactly when its records number at most 512, are of the right size each, and fit a mebibyte with their headers |
| ParameterStream.RecordLies | protocol/ParameterStream.cpp:133-142 | every field of an encoded record at its offset, signed ones in two's complement |
| ParameterStream.StreamLayout | protocol/ParameterStream.cpp:125-142 | the head of an encoded stream, with the records one behind the other |
| ParameterStream.EncodeParameterStream | protocol/ParameterStream.cpp:103-143 | the two-pass encoder computes the encoding, errors included; `EncodesIff` says when that is one, `StreamLayout` and `RecordLies` what it looks like |
| ParameterStream.DecodeParameterStream | protocol/ParameterStream.cpp:145-230 | the decoder computes the decoding, errors included, which `DecodesExactlyEncodings` and `DecodedRecordsAreComplete` describe |
| SnapshotCommand.DecodeEncode | protocol/SnapshotCommand.cpp:71-399 | every command is decoded back to itself under its own type |
| SnapshotCommand.EncodeDecode | protocol/SnapshotCommand.cpp:71-399 | and re-encoded to the same bytes, but for the padding of a cleared route |
| SnapshotCommand.PaddingIsIgnored | protocol/SnapshotCommand.cpp:71-399 | a cleared route is accepted with any padding, and re-encoded to the same bytes exactly when that is zero |
| SnapshotCommand.EncodesIff | protocol/SnapshotCommand.cpp:71-399 | exactly what can be sent of each command, in numbers |
| SnapshotCommand.BeginLayout | protocol/SnapshotCommand.cpp:71-110 | every field of an encoded begin at its offset |
| SnapshotCommand.CommandLayout | protocol/SnapshotCommand.cpp:164-360 | and of the other commands, with their type numbers and sizes |
| SnapshotApply.StagedIsReceived | src/SnapshotApplyController.cpp:56-111 | over every run the staged bytes are the chunks since the accepted begin, never more than announced |
| SnapshotApply.CommitterSees | src/SnapshotApplyController.cpp:113-217 | the committer is called only with the snapshot those bytes decode to, of the announced size, checksum and generations, for the current route, and newer than all before |
| SnapshotApply.LastMoves | src/SnapshotApplyController.cpp:149-217 | only an adopted snapshot moves the recorded generations, and only forward |
| SnapshotApply.GenerationsIncrease | src/SnapshotApplyController.cpp:149-217 | generation pairs of adopted snapshots strictly increase |
| SnapshotApply.RepeatWasAdopted | src/SnapshotApplyController.cpp:157-175 | a repeat is answered from an earlier adoption, without the committer |
| SnapshotApply.SnapshotApplyController.SetDeviceKeyHash | src/SnapshotApplyController.cpp:36-38 | refines the step function |
| SnapshotApply.SnapshotApplyController.Begin | src/SnapshotApplyController.cpp:56-85 | refines the step function on every path |
| SnapshotApply.SnapshotApplyController.Append | src/SnapshotApplyController.cpp:87-111 | refines the step function on every path |
| SnapshotApply.SnapshotApplyController.Commit | src/SnapshotApplyController.cpp:113-217 | refines the step function on every path, and records the committer's calls |
| SnapshotApply.SnapshotApplyController.Abort | src/SnapshotApplyController.cpp:219-223 | refines the step function |
| SnapshotDelivery.FoldAcks | src/DriverEventPublisher.cpp:184-224 | the fold over the contexts' answers gives the first refusal, or else the first answer |
| SnapshotDelivery.ReceivesCommand | src/ViperContext.cpp:126-223 | a command that went through frame and command codecs is obeyed by every context as it was meant |
| SnapshotDelivery.ChunksDelivered | daemon/DaemonRuntime.cpp:389-407 | the chunks stage all the bytes in every context, and none is answered |
| SnapshotDelivery.TransferIsDelivered | daemon/DaemonRuntime.cpp:358-419 | a transfer to idle contexts on its route: each older context's committer is called exactly once with exactly the snapshot, and the two answers say so |
| SnapshotDelivery.ValidSnapshotArrives | daemon/DaemonRuntime.cpp:358-419 | this for every valid snapshot with decodable parameter streams |
| SnapshotDelivery.BeginAnswer | src/SnapshotApplyController.cpp:56-85 | a begin, of the daemon or the App, is accepted exactly when every context is idle and on the route; those on the route stage either way |
| StuckStaging.IdleAgainIff | daemon/DaemonRuntime.cpp:358-419 | after a snapshot is sent to idle contexts, nobody is left staging if and only if none is on its route, or the begin was not delivered, or all are, the accepted begin was heard of and the commit was delivered |
| StuckStaging.StuckRunSticks | daemon/DaemonRuntime.cpp:179-215 | a run from no contexts that leaves one staging: the second context was never told the route |
| StuckStaging.FailedSendSticks | daemon/DaemonRuntime.cpp:389-415 | a run from no contexts that leaves one staging: its begin was accepted, and a chunk or the commit could not be sent |
| StuckStaging.RelayedBeginStages | daemon/DaemonRuntime.cpp:587-622 | a begin of the App to idle contexts leaves nobody staging if and only if none is on its route |
| StuckStaging.StaysStagingIff | src/SnapshotApplyController.cpp:56-111 | a staging context stays so under an action if and only if that is not its unregistration, nor an abort, a commit or a chunk it refuses |
| StuckStaging.StagingIsForGood | daemon/DaemonRuntime.cpp:358-460 | the same over runs of transfers, announcements, relayed commands and contexts coming and going; and meanwhile every snapshot of the daemon is refused, with no committer called |
| StuckStaging.OnlyAppClears | daemon/DaemonRuntime.cpp:358-460 | without aborts, commits and chunks of the App only unregistering it clears a staging context |
| StuckStaging.AppClearsAll | daemon/AppEventServer.cpp:254-295 | a relayed abort or commit clears every context |
| StuckStaging.AbortUnsticks | daemon/DaemonRuntime.cpp:587-658 | the stuck run ends with nobody staging when the App aborts |
| SnapshotDelivery.DaemonRuntime.ApplySnapshotToDriver | daemon/DaemonRuntime.cpp:358-419 | sends the frames of the transfer, the stream only after an accepted begin, up to the first that the socket does not take, and reports success exactly when all went and both answers accepted |
| ApplyHandshake.StepKeepsInv | daemon/DriverEventServer.cpp:170-188 | at most one answer can end the wait for a begin; once it is accepted contexts stage only fronts of that transfer, the daemon's or the App's; no accepting answer awaits a commit that was not made |
| ApplyHandshake.ReportedWasCommitted | daemon/DaemonRuntime.cpp:358-430 | whatever is lost or late, whichever contexts come and go and whatever the App has relayed: a transfer reported accepted was committed, every context there taking exactly its snapshot |
| ApplyHandshake.StoredWasTaken | daemon/DaemonRuntime.cpp:587-728 | what is stored of the App's was committed under that very request, every context there taking exactly that snapshot, if the App's begin was heard to be accepted and the daemon streamed nothing of its own since |
| ApplyHandshake.LosslessTransferReports | daemon/DaemonRuntime.cpp:358-430 | with nothing lost, a valid snapshot sent to idle contexts on its route is reported accepted if and only if each has it or is older and adopts it |
| AppStagings.AppStager.StageAppSnapshotCommand | daemon/DaemonRuntime.cpp:660-695 | refines the function on the copy, undecodable commands included |
| AppStagings.AppStager.CommitStagedAppSnapshot | daemon/DaemonRuntime.cpp:697-728 | stores exactly a complete copy for the current route, and drops it in any case |
| AppStagings.CompleteIsValid | daemon/DaemonRuntime.cpp:697-728 | only valid snapshots are stored, under their own route |
| AppStagings.StoredIff | daemon/DaemonRuntime.cpp:660-728 | after a begin and a run of chunks the copy is stored exactly if the chunks amount to a snapshot for the current route, of the announced size and checksum |
| AppMixups.MixupIff | daemon/DaemonRuntime.cpp:606-622 | a run in which the driver takes one snapshot of the App: the daemon stores another one for it if and only if that one's begin could not be sent |
| AppMixups.RestoreMixes | daemon/DaemonRuntime.cpp:587-728 | a run in which a snapshot of the daemon's own comes between: the driver takes that one and the daemon stores the App's |
| AppMixups.SamplesMix | daemon/DaemonRuntime.cpp:697-728 | two different snapshots for which both runs happen |
| AppMixups.NothingIsStored | daemon/DaemonRuntime.cpp:660-728 | without a copy, and until the App begins again, nothing is stored |
| SnapshotStore.SurvivorsAreGood | daemon/SnapshotStore.cpp:262-278 | whichever unsynced changes survive a crash, the files in place are good |
| SnapshotStore.StepKeepsInv | daemon/SnapshotStore.cpp:206-281 | every step, skipped rotation, failure and crash keeps the invariant |
| SnapshotStore.CurrentSurvives | daemon/SnapshotStore.cpp:190-281 | after a successful commit every later run loads that one or a later attempt, if and only if the route's directory was durable before it |
| SnapshotStore.FirstCommitCanBeLost | daemon/SnapshotStore.cpp:148-281 | the first commit on a new disk succeeds, loads, and is lost in a crash |
| SnapshotStore.CommitRotates | daemon/SnapshotStore.cpp:190-281 | a commit in which no step fails or is skipped: the current file loads the new snapshot, and the previous one what was current, or what it loaded before if the current did not load |
| SnapshotStore.PreviousSurvives | daemon/SnapshotStore.cpp:198-281 | when the previous file decodes, it does so in every later run if and only if the route's directory is durable |
| SnapshotStore.FallsBack | daemon/SnapshotStore.cpp:190-281 | both together: after such a commit over a snapshot that loads there is always a previous one to fall back to, whatever fails or crashes later, if and only if the route's directory is durable |
| SessionRegistries.RunIsOrdered | daemon/SessionRegistry.cpp:41-160 | no entry is newer than the highest sequence seen |
| SessionRegistries.SessionRegistry.Apply | daemon/SessionRegistry.cpp:41-135 | refines the event function on every path |
| SessionRegistries.SessionRegistry.MarkStaleAfter | daemon/SessionRegistry.cpp:137-146 | the loop marks exactly the entries at or before the mark |
| SessionRegistries.SessionRegistry.RescanComplete | daemon/SessionRegistry.cpp:148-160 | the loop erases exactly the entries not confirmed |
| RescanProtocol.Poll | daemon/DriverEventServer.cpp:190-198 | the loop refines the server's function on registries, and counts events and requests |
| RescanProtocol.HeldSince | daemon/DriverEventServer.cpp:190-198 | whatever arrives: the entries not stale are exactly the contexts confirmed, or held from the start, with no gap and no release of them since |
| RescanProtocol.RescanReconciles | daemon/SessionRegistry.cpp:41-160 | the first end of a replay after a gap, or any later one, leaves exactly the contexts confirmed since the last gap before it, none stale, no rescan asked for |
| RescanProtocol.ReplayReconciles | src/DriverEventPublisher.cpp:162-182 | after a replay the registry has the driver's contexts if and only if each was reported or held, and nothing else was held |
| RescanProtocol.LastReplayReconciles | daemon/DriverEventServer.cpp:190-198 | a whole replay after the last gap reconciles if and only if what was confirmed between the two still exists, whatever earlier ends erased |
| RescanProtocol.FirstTerminatorErases | daemon/DriverEventServer.cpp:190-198 | a run where a gap in the middle of a replay makes its end erase confirmed contexts, and the second replay restores them |
| RescanProtocol.LostResponseErases | src/DriverDaemonBridge.cpp:208-233 | after a gap, the end of a replay leaves exactly the contexts whose responses arrived |
| RescanProtocol.NothingComesBack | daemon/SessionRegistry.cpp:57-82 | with no context known, events that create none change nothing and no rescan is asked for |
| RescanProtocol.LossyRunLoses | src/DriverDaemonBridge.cpp:208-233 | such a run: a gap, a replay with its response lost, and later events that are ignored with another gap among them |
| RescanProtocol.SkipsIff | daemon/SessionRegistry.cpp:56-83 | a gap is revealed exactly by a live event of a known or created context whose number skips some |
| RescanProtocol.UnmentionedStays | daemon/SessionRegistry.cpp:148-160 | a held context no event mentions stays if and only if no such event comes |
| RescanProtocol.RestartGoesUnnoticed | daemon/SessionRegistry.cpp:63-82 | events numbered below what was seen reveal no gap, and old contexts stay as they were |
| RescanProtocol.RestartKeepsOld | daemon/DriverEventServer.cpp:190-198 | a run with a restart, after which the registry still has both contexts of before, as they were |
| RescanProtocol.RecordedAsTold | daemon/SessionRegistry.cpp:84-135 | over any run: state, sample rate and channel mask of a context are those the last event said anything of them |
| RescanProtocol.GenerationCounts | daemon/SessionRegistry.cpp:84-110 | the context generation is the number of contexts introduced, modulo 2^64 |
| OwnerSupervision.BudgetHolds | daemon/OwnerSupervisor.cpp:20-94 | at most three spawns between one refill of the budget and the next |
| OwnerSupervision.SpawnsAreSpaced | daemon/OwnerSupervisor.cpp:20-179 | two spawns are at least 2000 ms apart while an owner stays wanted, whatever callbacks come between |
| OwnerSupervision.EffectIffOwned | daemon/OwnerSupervisor.cpp:131-179 | the effect id is non-zero exactly while the effect is owned |
| OwnerSupervision.SilentOwnerIsReplaced | daemon/OwnerSupervisor.cpp:20-94 | a process that never answers is given up 4000 ms after it was started and replaced 2000 ms later, at the first poll from then on |
| OwnerSupervision.FailedSpawnsEnd | daemon/OwnerSupervisor.cpp:74-88 | a failed spawn is tried again after 2000 ms, and the third failure is final |
| OwnerSupervision.KillsOwnIff | daemon/OwnerSupervisor.cpp:96-109 | whatever happens only spawned processes are ever up for killing, if and only if nobody else connects while a spawned one is awaited or held |
| OwnerSupervision.KilledWereSpawned | daemon/OwnerSupervisor.cpp:194-204 | what an event of such a run kills was spawned |
| OwnerSupervision.StrangerIsKilled | daemon/OwnerSupervisor.cpp:96-109 | a process that connects while another, spawned one is awaited is killed in its place |
| OwnerSupervision.TrackedIff | daemon/OwnerSupervisor.cpp:160-179 | a session is tracked exactly when it was reported and nothing has dropped it since |
| OwnerSupervision.OwnerSupervisor.Poll | daemon/OwnerSupervisor.cpp:20-94 | refines the event function on every path, tries to spawn exactly when that says so, and kills exactly what `Kills` says |
| OwnerSupervision.OwnerSupervisor.OnConnected | daemon/OwnerSupervisor.cpp:96-109 | refines the event function |
| OwnerSupervision.OwnerSupervisor.SeedSurvivingOwner | daemon/OwnerSupervisor.cpp:111-129 | adopts a live process only while there is no owner |
| OwnerSupervision.OwnerSupervisor.OnOwned | daemon/OwnerSupervisor.cpp:131-140 | refines the event function |
| OwnerSupervision.OwnerSupervisor.OnOwnerFailed | daemon/OwnerSupervisor.cpp:142-150 | refines the event function |
| OwnerSupervision.OwnerSupervisor.OnReleased | daemon/OwnerSupervisor.cpp:152-158 | refines the event function |
| OwnerSupervision.OwnerSupervisor.OnSessionDelta | daemon/OwnerSupervisor.cpp:160-166 | refines the event function |
| OwnerSupervision.OwnerSupervisor.OnDisconnected | daemon/OwnerSupervisor.cpp:168-179 | refines the event function |

## Left out

- IemEngines.IemEngine.Process: assumes that the stream since the last restart is short enough for 64-bit source
  positions (`WithinClock`), and promises nothing between a failure of the pipeline itself and the next reset; the
  balance of the queues is gone then.
- IemEngines.IemEngine.Prepare: the pipeline is given prepared; its own failure to prepare is not a path here.
- StreamingResampling.StreamingResampler.Prepare: the coefficient table is given; how it is computed (Kaiser window,
  Bessel function), and that computing or allocating it can fail, is not modelled.
- StreamingResampling.StreamingResampler.Process: input is there and finite; the refusal of null or non-finite input is
  not modelled.
- MatrixConvolving.PartitionedMatrixConvolver.Prepare: responses are finite reals, and sizes do not overflow.
- IemEngines.IemEngine.ApplyParams: modelled for a prepared engine in balance. The effect of parameters on the
  pipeline is a given function on its state; the pipeline is any deterministic transducer of 256-frame blocks that may
  fail.
- MatrixConvolving.PartitionedMatrixConvolver.Process: what the FFT library computes is a hypothesis (`Fft.Lawful`:
  forward, accumulate and backward together are circular convolution); row buffers are whole sequences where the source
  copies inside one flat buffer.
- HaloEncoding.HaloEncoder.ProcessBed: the renderer from analysis buffers to a synthesis frame is a given function with
  state; the diffusion and the low-frequency post-processing of the bed are not part of the model.
- GrainPools.GranularEncoder.Process: what a grain sounds like, and the random numbers behind lengths and spacing, are
  given; the exhaustion counter does not wrap; the refusal of more frames than prepared is not modelled.
- ParameterMailbox.Linearizable: sequentially consistent atomics; generations do not wrap.
- DspGraphSlots.QuietBlock: the block is not the first after a pause, is not refused, and no step of another thread comes
  between; the theorems about runs have none of these conditions.
- DspGraphSlots.NeverPreparedInUse: sequentially consistent atomics; what resetting does to the graphs' own state is not
  modelled.
- SnapshotDelivery.DaemonRuntime.ApplySnapshotToDriver: the driver's two answers are parameters, and so is how many frames
  the socket takes; both sides together are in `ApplyHandshake`.
- StuckStaging.IdleAgainIff: contexts do not come and go in the middle of one transfer; in `ApplyHandshake` they do.
- ApplyHandshake.ReportedWasCommitted: request ids do not wrap.
- ApplyHandshake.StoredWasTaken: the daemon generation that the stored copy is given, and storing it in the files, are not
  part of it (`SnapshotStore`); the condition is sufficient, and each of its halves is needed (`AppMixups`).
- SnapshotStore.CurrentSurvives: values and steps instead of file-system calls; the route's directory and those above it
  are one directory.
- SnapshotStore.CommitRotates: every entry of the directory it starts from names a file (`HasFiles`), as in every run from
  a new disk.
- RescanProtocol.Poll: events arrive decoded, and requests for a rescan are counted whether or not the socket takes them.
- OwnerSupervision.OwnerSupervisor.Poll: whether a process is spawned successfully is given.
- Samples are reals: no rounding, no denormals, no infinities or NaN, hence not the finiteness checks of the engine.
- Audio rings and queues hold whole frames where the source holds one plane per channel; allocation always succeeds.
- SHA-256 is a function parameter of which nothing is assumed, and so is the numbering of the parameters:
  ViPERParams.h is not part of this model.
- `IemGraphSlots`: its publishing swap also clears the previous graph, so the ownership theorem is not claimed for it,
  and what is left (distinct indices, growing generations) is easy.
- `IemParameterMailbox` and `IemTelemetry` are the mailbox algorithm again, the latter with a reader that does not filter
  generations (`filtered` in `ParameterMailbox.State`).
- `GenerationArbiter`, parameter clamping, telemetry structures and the fixed-size hello codecs only add easy members.
- Socket and process plumbing, signal handling, the state file, the Java owner, filters, limiter and neural net.
