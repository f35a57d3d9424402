# HWControl: a verified model of the audio core and the command bridge

This project models, in Dafny, the parts of HWControl whose correctness is hard to see from one function body: the
spectrum transform, the lock-free spectrum queue, the loudness meter and the DSP chain of the native audio core, and
the command protocol, the installation inventory and the fan safety path of the Go bridge. `dafny verify
dfyconfig.toml` checks everything.

Conventions. `float` and `double` are exact reals; a sample that `isfinite` rejects is the separate value `NotFinite`.
Sines, logarithms, powers and square roots are parameters of which only the needed algebraic facts are required.
Clock readings, hash functions, file scans and authentication codes are parameters. Go strings are sequences of bytes,
one `char` each. Concurrent code is a state machine whose steps are the individual loads, copies, stores and channel
operations, and the theorems quantify over every run.

## The main results

* **Transform** (`Rings`, `BitReversal`, `Fft`, `FftEnergy`). For every power-of-two length the in-place loop nest leaves
  in slot k the sum of x[n]·w^(n·k), over every commutative ring with a chain of square roots of −1, and so for the
  complex numbers; with roots on the unit circle it multiplies the total energy by the length.
* **Spectrum queue** (`SpectrumQueue`, `QueueProgress`). For every interleaving, with each side's view of the other
  index and of the contiguity flag allowed to lag as far as acquire/release ordering permits: no slot is written while it is read, the
  analyzer reads whole frames in production order, no sample is unaccounted for, the queue refines a FIFO of four
  frames with drops, what the loudness meter is fed is a prefix of the stream that ends before the first
  drop. And progress: a worker that sees a frame takes it up and is done with it in fewer than 4101 steps, the callback
  never waits, nothing is left unmetered without a drop, and after a stop the worker exits, with everything analysed unless it
  had stopped looking.
* **Loudness** (`Filters`, `KWeighting`, `LoudnessMeter`, `Gating`). The energies are those of both channels through the
  difference equations of the two sections; blocks in closed form, independence of chunking down to the ring cells and
  cursors, the exact condition under which integrated loudness is available, its lower bound, and that it is the loudness
  of the mean over exactly the blocks within both gates.
* **DSP chain** (`EngineTuning`, `FilterSettling`, `AudioEngine`, `EngineCascade`, `Compressor`, `AudioCallback`). From
  rest, each channel of the output is the cascade of gain and gate, high-pass and three bands by their difference
  equations, and the gain of the static curve at the envelope, limited; the partition of a stream into calls is
  invisible, the noise gate is exactly the zeroing of the quiet samples, the limiter and its count are exact,
  compression never reverses loudness order, and the filter sections settle on every constant signal.
* **From device to display** (`LoudnessPath`). Engine, callback, queue, meter and gating together: whatever the
  interleaving and the drops, the n-th loudness value published is the gated loudness of the closed-form blocks of the
  engine's output for the first 10240·(n + 1) input samples.
* **Inventory** (`InventoryPool`, `VerifyRecords`). The worker pool never deadlocks, every schedule has the same length,
  and the result equals the sorted serial inventory.
* **Command protocol** (`ReplayCache`, `Commands`, `Connection`). All of it for lookups in whatever order their clocks
  were read, because the reading is taken before the lock: at every lookup the unexpired cache entries are exactly the
  nonces accepted on any connection and not read past since; over all runs of the service a command is dispatched if and
  only if it passed every check, stated on the events before it; and a command can be dispatched twice if and only if
  clock readings may run ahead of timestamp checks by more than its age; and a connection is open if and only if nothing
  on it failed and never were five requests rejected in one of two ways since its last accepted nonce. In clock order
  the cache is a 30-second window on the log of accepted nonces. Signed texts are injective.
* **Fan safety** (`HardwareHealth`, `FanControl`). From the recommendation of emergency cooling to the PWM write: the
  exact condition under which a full-speed command is executed and writes 255, while no other command is.
* **Telemetry CSV** (`TelemetryCsv`).

Six promises turned out to hold only under a condition. Each has a lemma or method with a failing input and a
statement of exactly when it holds:

* A baseline written for an **empty inventory** is signed over `[]` but stored, and read back, as `null`, so the next
  start rejects it (`VerifyRecords.BaselineRoundTrip`, `VerifyRecords.EmptyBaselineRejected`).
* A command **can be dispatched twice**. Each request reads the clock twice, once for the timestamp
  (`bridge_service/src/main.go:530`) and later, before the lock is taken, for the nonce
  (`bridge_service/src/main.go:1438`). If no lookup reads the clock more than some lead after the timestamp check of its
  own request or of a later one, a second dispatch is possible if and only if that lead exceeds the age of the command
  when its nonce was first looked up (`ReplayCache.ReplayableExactly`, `Connection.DispatchableTwiceExactly`,
  `Connection.BridgeDispatchesTwice`). In clock order the lead is the second request's own delay
  (`Connection.DispatchableInOrderExactly`): a command stamped at its acceptance, checked again exactly 30 s later and
  looked up one nanosecond after that, is accepted again, and so is one stamped in the future with no delay at all
  (`ReplayCache.ReplaysHappen`). Out of clock order no delay is needed at any age
  (`Connection.DelayIsNoProtection`).
* Equal nonces are accepted more than 30 s apart if lookups happen in the order of their **clock readings**, but not in
  general. Whatever the order, a nonce is accepted again if and only if some lookup since its last acceptance read the clock past
  its expiry and the cache has room (`ReplayCache.AcceptedAgainExactly`, `Connection.NonceAcceptedAgain`);
  `ReplayCache.OutOfOrderCalls` shows two acceptances exactly 30 s apart.
* **Emergency cooling** can be recommended while every fan command is refused: exactly if the other sensor is out of
  range, or the aggregate control is unusable and every controllable channel is listed behind an unusable one with its
  id (`HardwareHealth.EmergencyCoolingGates`, `HardwareHealth.EmergencyCoolingRefused`,
  `HardwareHealth.EmergencyCoolingShadowed`).
* The **analysis worker** does not always finish the queue: it exits with a published frame never analysed exactly if it
  had found the queue empty, and that frame came, before it looked for the stop request (`QueueProgress.ShutdownDrains`,
  `QueueProgress.FrameCanBeLeft`).
* Reading a **CSV line** written by section 2 of RFC 4180 gives the fields trimmed, so it gives the same fields exactly
  when none begins or ends with white space (`TelemetryCsv.WriteThenRead`, `TelemetryCsv.QuotedBlankIsLost`).

## Model

| member | source | states |
|---|---|---|
| BitReversal.RevInvolution | audio_core/src/audio_analyzer.cpp:14-19 | reversing the binary digits twice gives the index back, for every width |
| BitReversal.ReverseIncrementIsNext | audio_core/src/audio_analyzer.cpp:15-17 | adding one from the top bit down turns the reversal of i into the reversal of i + 1 |
| BitReversal.NextReversed | audio_core/src/audio_analyzer.cpp:15-17 | the carry loop on j computes the bit reversal of the next index |
| BitReversal.Permute | audio_core/src/audio_analyzer.cpp:14-19 | the swap pass leaves in every cell the old value at the reversed index |
| Fft.EvenOddSplit | audio_core/src/audio_analyzer.cpp:28-31 | a sum over interleaved entries is E(z²) + z·O(z²) |
| Fft.ButterflyBlock | audio_core/src/audio_analyzer.cpp:25-33 | the innermost loop, with its running weight, computes every butterfly of the block and touches nothing else |
| Fft.StagePass | audio_core/src/audio_analyzer.cpp:24-34 | one pass takes every aligned block from one stage to the next |
| Fft.Butterflies | audio_core/src/audio_analyzer.cpp:21-35 | all passes leave the whole buffer as one block of the last stage |
| Fft.BlockIsTransform | audio_core/src/audio_analyzer.cpp:21-35 | after s stages every block holds the transform of its entries in bit-reversed order |
| Fft.StagesGiveTransform | audio_core/src/audio_analyzer.cpp:13-36 | all stages on the bit-reversed input give the transform of the input |
| Fft.Transform | audio_core/src/audio_analyzer.cpp:13-36 | the loop nest computes the transform over any commutative ring |
| Fft.TransformIsFourierSum | audio_core/src/audio_analyzer.cpp:13-36 | slot k of a transform is the sum of x[n]·w^(n·k) |
| Fft.FftInPlace | audio_core/src/audio_analyzer.cpp:13-36 | the complex loop nest leaves the Fourier sum of the input in every slot |
| FftEnergy.BlockEnergy | audio_core/src/audio_analyzer.cpp:21-35 | each stage doubles the energy of every block |
| FftEnergy.TransformScalesEnergy | audio_core/src/audio_analyzer.cpp:13-36 | with unit roots the transform multiplies the total squared magnitude by the length |
| StereoSums.Accumulate | audio_core/src/audio_analyzer.cpp:56-77 | the loop computes the five sums of the sanitized pairs |
| StereoSums.SumsOfChannels | audio_core/src/audio_analyzer.cpp:56-77 | which are the sums of each channel and the products of the channels with themselves and each other |
| StereoSums.CentredIsTwoPass | audio_core/src/audio_analyzer.cpp:84-89 | the one-pass centred sums are the sums over deviations from the means |
| StereoSums.OffsetsDropOut | audio_core/src/audio_analyzer.cpp:84-89 | adding a constant to either channel changes none of the three sums |
| StereoSums.CentredSumsBounded | audio_core/src/audio_analyzer.cpp:84-91 | centred squares are non-negative and cross² ≤ left·right |
| StereoSums.GuardsAreNoOps | audio_core/src/audio_analyzer.cpp:84-97 | the guards against negative squares and a correlation outside [−1, 1] change nothing |
| StereoSums.StereoCorrelation | audio_core/src/audio_analyzer.cpp:56-97 | the analyzer's correlation is the correlation coefficient of the two sanitized channels and lies in [−1, 1] |
| SpectrumQueue.StepKeepsInv | audio_core/src/audio_device_host.cpp:103-173 | every step of either thread keeps the whole queue invariant |
| SpectrumQueue.RunKeepsInv | audio_core/src/audio_device_host.cpp:85-173 | so does every run of a session |
| SpectrumQueue.NoSlotShared | audio_core/src/audio_device_host.cpp:111-161 | the producer never writes the slot the worker is reading |
| SpectrumQueue.AnalysisReadsStream | audio_core/src/audio_device_host.cpp:103-173 | the analyzer reads whole frames in production order, and pushed = 2048·(enqueued + dropped) + partial |
| SpectrumQueue.LoudnessIsContiguous | audio_core/src/audio_device_host.cpp:104-172 | the meter is fed a gap-free prefix that never reaches the first dropped frame, and the i-th stored loudness value is the meter's reading of exactly the first 5(i+1) frames |
| SpectrumQueue.StepRefinesFifo | audio_core/src/audio_device_host.cpp:49-173 | every step is a step of a FIFO of at most four frames with drops, and what leaves it is what was analysed |
| SpectrumQueue.DropOnlyWhenSeenFull | audio_core/src/audio_device_host.cpp:156-170 | a frame is dropped exactly when the producer's view shows four frames queued |
| QueueProgress.PollTakesUp | audio_core/src/audio_device_host.cpp:104-111 | after a poll the worker waits exactly if it saw no more frames than were released, and else takes one up |
| QueueProgress.TurnCompletes | audio_core/src/audio_device_host.cpp:104-138 | from such a poll to its release the worker is never stuck and takes fewer than 4100 steps, and the release adds exactly the next frame to what was analysed |
| QueueProgress.UndroppedIsMetered | audio_core/src/audio_device_host.cpp:111-123 | as long as no frame was dropped everything analysed was metered, and a value stored for every five frames |
| QueueProgress.ShutdownDrains | audio_core/src/audio_device_host.cpp:104-151 | after a stop request and the last callback the worker exits within 4101 steps a queued frame and two more, never stuck, with every published frame analysed exactly unless it was already waiting when the last of them came |
| QueueProgress.FrameCanBeLeft | audio_core/src/audio_device_host.cpp:106-107 | a failing run: the queue is found empty, a frame is published, a stop requested, and the worker exits with the frame never analysed |
| QueueProgress.ExitIsAsked | audio_core/src/audio_device_host.cpp:106-107 | the worker exits only on request and when its last look found no frame unreleased |
| QueueProgress.CallbackNeverWaits | audio_core/src/audio_device_host.cpp:152-173 | in every state of every run a step of the callback is enabled |
| QueueProgress.FrameIsDealtWith | audio_core/src/audio_device_host.cpp:156-173 | a full frame is published or counted as dropped within 2050 steps of the callback |
| LoudnessMeter.RingStep | audio_core/src/loudness_meter.cpp:96-103 | one frame moves the ring and its rolling sum to the next window |
| LoudnessMeter.BlockStep | audio_core/src/loudness_meter.cpp:105-110 | a block is emitted exactly when the window is full and a hop has passed |
| LoudnessMeter.BlocksInClosedForm | audio_core/src/loudness_meter.cpp:85-112 | 0 blocks before the window fills, then 1 + (n−W)/H, and block j is the mean energy of frames jH..jH+W−1 |
| LoudnessMeter.BlocksDetermined | audio_core/src/loudness_meter.cpp:85-112 | the block list is the closed-form list of blocks of the energies |
| LoudnessMeter.ChunkingInvisible | audio_core/src/loudness_meter.cpp:85-112 | meters fed the same frames in whatever chunks agree in blocks, counters, rolling sum, cursors, live ring cells and delays |
| LoudnessMeter.LoudnessMeter.Configure | audio_core/src/loudness_meter.cpp:33-42 | accepts exactly the rates 8–192 kHz, rounds window and hop, and then hop ≤ window ≤ capacity always |
| LoudnessMeter.LoudnessMeter.Reset | audio_core/src/loudness_meter.cpp:150-158 | clears the history and keeps the configuration |
| LoudnessMeter.LoudnessMeter.MoveWindow | audio_core/src/loudness_meter.cpp:96-103 | ring and rolling sum hold the window that ends with the new energy |
| LoudnessMeter.LoudnessMeter.EmitBlock | audio_core/src/loudness_meter.cpp:105-110 | the block list stays the list of all blocks due |
| LoudnessMeter.LoudnessMeter.Process | audio_core/src/loudness_meter.cpp:85-112 | appends to what was fed and keeps every field a function of the weighted energies of all of it |
| Filters.TickedResponds | audio_core/src/loudness_meter.cpp:14-26 | a section ticked from rest realizes its difference equation at every sample |
| Filters.ResponseIsUnique | audio_core/src/loudness_meter.cpp:14-26 | which has one solution |
| KWeighting.EnergyIsOfBothChannels | audio_core/src/loudness_meter.cpp:88-94 | the energy of every frame is the sum of the squares of both sanitized channels, each through the shelf and then the high-pass by their difference equations |
| KWeighting.SwapKeepsEnergies | audio_core/src/loudness_meter.cpp:88-94 | swapping the channels changes no energy |
| KWeighting.SilentLeftChannel | audio_core/src/loudness_meter.cpp:88-94 | a silent left channel leaves exactly the energy of the right one |
| Gating.GatePass | audio_core/src/loudness_meter.cpp:122-129 | one pass sums and counts the blocks above both thresholds |
| Gating.GatedIsOverSet | audio_core/src/loudness_meter.cpp:122-143 | that is the sum and the size of the set of blocks at or above −70 LUFS and the threshold |
| Gating.IntegratedIsOfForeground | audio_core/src/loudness_meter.cpp:133-146 | integrated loudness is that of the mean over exactly the blocks at or above −70 LUFS and within 10 LU of the absolute-gated mean |
| Gating.QuietBlocksDoNotCount | audio_core/src/loudness_meter.cpp:133-146 | histories with the same absolute-gated mean that differ only in blocks more than 10 LU below it have the same integrated loudness |
| Gating.QuietBlockIsLeftOut | audio_core/src/loudness_meter.cpp:133-146 | a block 30 LU below another does not count |
| Gating.LoudnessScale | audio_core/src/loudness_meter.cpp:80-83 | −0.691 LUFS for unit energy, ten LU for a factor of ten, −120 for none |
| Gating.MeanAboveGate | audio_core/src/loudness_meter.cpp:132-133 | the absolute-gated mean is itself at or above −70 LUFS |
| Gating.RelativeGateKeepsOne | audio_core/src/loudness_meter.cpp:133-143 | the relative gate never empties the set |
| Gating.RelativeMeanNotLower | audio_core/src/loudness_meter.cpp:132-146 | the relative gate never lowers the mean |
| Gating.Metrics | audio_core/src/loudness_meter.cpp:114-148 | integrated loudness is available exactly when a block reaches −70 LUFS, is then that of the mean over exactly the blocks within both gates, and at least that of the absolute-gated mean |
| Compressor.FormulasAgreeAtEdges | audio_core/src/audio_engine.cpp:163-175 | the knee and the straight line agree at both knee edges |
| Compressor.CompressionKeepsOrder | audio_core/src/audio_engine.cpp:159-176 | the reduction is non-negative and non-decreasing, and level minus reduction is non-decreasing |
| Compressor.ReductionLeaves | audio_core/src/audio_engine.cpp:159-176 | what the reduction leaves of a level is the level below the knee, a ratio-th of it above, and a parabola between |
| Signals.TickIsDifferenceEquation | audio_core/src/audio_engine.cpp:66-77 | three ticks from any delays satisfy the second-order difference equation of the coefficients |
| AudioEngine.RunSplits | audio_core/src/audio_engine.cpp:127-197 | one call equals two calls on a stream cut between frames |
| AudioEngine.PartitionInvisible | audio_core/src/audio_engine.cpp:127-197 | outputs, delays, envelopes and limited count do not depend on the partition into blocks |
| AudioEngine.RunLimits | audio_core/src/audio_engine.cpp:178-181 | every output is the limited value and the count is that of the samples above the ceiling |
| AudioEngine.LimiterIsExact | audio_core/src/audio_engine.cpp:178-181 | outputs stay within the ceiling, samples within it pass unchanged, and the count is exact |
| AudioEngine.GateZeroesQuietSamples | audio_core/src/audio_engine.cpp:147-148 | the engine with the gate on gives, from any state and for any stream, what it gives with the gate off on the stream whose samples below the threshold are zeroed |
| AudioEngine.QuietStreamIsSilent | audio_core/src/audio_engine.cpp:147-181 | from a cleared state a stream below the threshold gives silence and leaves every delay and envelope cleared |
| AudioEngine.EnvelopeBetween | audio_core/src/audio_engine.cpp:154-158 | the envelope stays between its old value and the magnitude |
| EngineTuning.HighPassStopsConstants | audio_core/src/audio_engine.cpp:52-64 | the high-pass section has a steady state with output zero for every constant signal |
| EngineTuning.PeakingPassesConstants | audio_core/src/audio_engine.cpp:34-50 | a peaking band has a steady state that passes every constant signal, whatever its gain |
| FilterSettling.ErrorBalance | audio_core/src/audio_engine.cpp:66-77 | the squared errors of all outputs so far, times a positive loss, and the energy of the remaining deviation add up to that of the initial one |
| FilterSettling.Settles | audio_core/src/audio_engine.cpp:66-77 | so from any delays the squared errors stay within a bound for ever, and for every distance only a bounded number of outputs is that far off |
| FilterSettling.HighPassSettles | audio_core/src/audio_engine.cpp:52-77 | the high-pass section settles to zero on every constant signal |
| FilterSettling.PeakingSettles | audio_core/src/audio_engine.cpp:34-77 | a peaking band settles to the signal itself on every constant signal |
| EngineTuning.FlatBandIsTransparent | audio_core/src/audio_engine.cpp:34-50 | a band with a gain of 0 dB passes every signal unchanged |
| AudioEngine.DerivedEnvelope | audio_core/src/audio_engine.cpp:104-107 | the envelope coefficients of a configuration lie strictly between zero and one |
| AudioEngine.Engine.Configure | audio_core/src/audio_engine.cpp:84-125 | moves every control to the nearest bound of its range, or to its default if it is not finite, derives sections and coefficients from the result, falls back to 48 kHz, and clears the state |
| EngineTuning.HighPassPassesFastest | audio_core/src/audio_engine.cpp:52-64 | the high-pass section passes the fastest signal unchanged |
| EngineTuning.PeakingPassesFastest | audio_core/src/audio_engine.cpp:34-50 | so does a peaking band |
| EngineTuning.BandGainAtCentre | audio_core/src/audio_engine.cpp:34-50 | a band amplifies its own frequency by exactly its gain |
| EngineTuning.TimeConstant | audio_core/src/audio_engine.cpp:104-107 | over its envelope time a deviation decays by one time constant |
| EngineCascade.EngineIsCascade | audio_core/src/audio_engine.cpp:127-197 | from rest each channel of the output is gain and gate, high-pass and the three bands in order by their difference equations, times the gain of the static curve at the envelope, limited |
| EngineCascade.CascadeIsUnique | audio_core/src/audio_engine.cpp:127-197 | that specification has one solution |
| EngineCascade.CompressorIsGain | audio_core/src/audio_engine.cpp:153-177 | from any state, with the compressor on what reaches the limiter is what reaches it with the compressor off times the gain of the static curve at an envelope that attacks exactly while the magnitude exceeds it; no magnitude is raised |
| AudioEngine.Engine.Chain | audio_core/src/audio_engine.cpp:142-177 | one sample through gain, gate, filters and compressor, changing only its own channel |
| AudioEngine.Engine.Process | audio_core/src/audio_engine.cpp:127-197 | rewrites exactly the given frames with the outputs of the stream and adds up both counters |
| AudioCallback.RunOfCleaned | audio_core/src/audio_device_host.cpp:222-226 | the callback's sanitizing changes nothing for the engine |
| AudioCallback.Host.Blocks | audio_core/src/audio_device_host.cpp:217-243 | the block loop equals one engine call: the 2048-frame split is invisible |
| AudioCallback.Host.Callback | audio_core/src/audio_device_host.cpp:201-252 | over a whole session the callbacks hand on what one engine call on all their input would give |
| LoudnessPath.MeteringWorker.Take | audio_core/src/audio_device_host.cpp:111-123 | every fifth frame stores the reading of everything fed so far |
| LoudnessPath.WorkerStoresAsSession | audio_core/src/audio_device_host.cpp:104-138 | a worker fed what the meter of a session was fed has stored what the session has stored |
| LoudnessPath.StoredMeasure | audio_core/src/audio_device_host.cpp:104-172 | whatever the meter reads, a stored value is its reading of the engine output for a prefix of the input |
| LoudnessPath.PublishedLoudness | audio_core/src/audio_device_host.cpp:104-243 | in every run the n-th value stored is the gated loudness of the closed-form blocks of the engine output for the first 10240·(n+1) input samples |
| VerifyRecords.CanonicalSorted | bridge_service/src/verify_integrity.go:59-63 | the canonical order is sorted by path |
| VerifyRecords.CanonicalContents | bridge_service/src/verify_integrity.go:59-63 | and has the same records |
| VerifyRecords.SortedIsUnique | bridge_service/src/verify_integrity.go:59-63 | with distinct paths there is only one such order |
| VerifyRecords.RecordsEqual | bridge_service/src/verify_integrity.go:188-200 | the loop decides equality of the canonical orders |
| VerifyRecords.ComparisonIgnoresOrder | bridge_service/src/verify_integrity.go:188-200 | that is equality of the record sets, whatever the order |
| VerifyRecords.VerifyInstallation | bridge_service/src/verify_integrity.go:241-278 | writes a baseline if there is none, else accepts exactly an authentic state with equal records |
| VerifyRecords.BaselineIsAuthentic | bridge_service/src/verify_integrity.go:202-254 | a written baseline authenticates exactly if the inventory was not empty, or both encodings of an empty one share a code |
| VerifyRecords.BaselineRoundTrip | bridge_service/src/verify_integrity.go:241-278 | baseline then verification succeeds exactly for the same records and under that condition |
| VerifyRecords.EmptyBaselineRejected | bridge_service/src/verify_integrity.go:248-254 | an empty installation is rejected at its second start |
| InventoryPool.WorkerCount | bridge_service/src/verify_integrity.go:132-138 | the smallest of four, the processors and the paths |
| InventoryPool.StepKeepsPlaces | bridge_service/src/verify_integrity.go:140-181 | no step loses or duplicates a path |
| InventoryPool.NeverStuck | bridge_service/src/verify_integrity.go:140-186 | until the collector has finished some step is enabled |
| InventoryPool.StepCountsDown | bridge_service/src/verify_integrity.go:140-186 | every step brings the end one step nearer |
| InventoryPool.MaximalRunFinishes | bridge_service/src/verify_integrity.go:140-186 | every schedule ends after 4·paths + workers + 3 steps with every path collected once |
| InventoryPool.CollectResults | bridge_service/src/verify_integrity.go:171-185 | the collector returns the sorted records, or the first error to arrive |
| InventoryPool.PoolEqualsSerial | bridge_service/src/verify_integrity.go:107-186 | under every schedule the result is the sorted serial inventory, and an error exactly if some path fails |
| InventoryPool.StartedPool | bridge_service/src/verify_integrity.go:132-186 | with the number of workers that is started, on any machine, the pool finishes and its result is the serial one |
| InventoryPool.InventoryIsOfPaths | bridge_service/src/verify_integrity.go:140-186 | an inventory that is returned is sorted and holds exactly the digests of the paths |
| ReplayCache.ReplayNonces.ConsumeNonce | bridge_service/src/main.go:1289-1308 | purges expired nonces, then accepts a nonce that is not cached if there is room |
| ReplayCache.ConsumeKeepsWindow | bridge_service/src/main.go:1289-1308 | a call in clock order keeps the cache the window of nonces accepted in the last 30 s |
| ReplayCache.RefusedExactly | bridge_service/src/main.go:1297-1305 | a nonce is refused exactly if accepted in the last 30 s or the window is full |
| ReplayCache.StaysCached | bridge_service/src/main.go:1286-1308 | a cached nonce stays cached while no call reads the clock past its expiry |
| ReplayCache.ForgottenOncePast | bridge_service/src/main.go:1286-1308 | after such a reading a nonce not accepted again is no longer cached |
| ReplayCache.AcceptedAgainExactly | bridge_service/src/main.go:1286-1308 | whatever the order of the readings, a nonce is accepted again exactly if one since its last acceptance was past its expiry and the cache has room |
| ReplayCache.FarApartInClockOrder | bridge_service/src/main.go:1286-1308 | hence in clock order equal nonces are accepted more than 30 s apart |
| ReplayCache.RunIsWindow | bridge_service/src/main.go:1286-1308 | in clock order the cache is always the window on the log of accepted nonces and holds at most 4096 |
| ReplayCache.LogIsFarApart | bridge_service/src/main.go:1286-1308 | and equal nonces of the log are more than 30 s apart |
| ReplayCache.StillLive | bridge_service/src/main.go:1286-1308 | an accepted nonce is unexpired until some call reads past its expiry |
| ReplayCache.ReplayableExactly | bridge_service/src/main.go:527-533 | whatever the order of the readings, a command can be accepted a second time exactly if a reading may be further ahead of its second timestamp check than its first acceptance was from the timestamp |
| ReplayCache.ReplaysHappen | bridge_service/src/main.go:1438-1447 | failing inputs in clock order: stamped at its acceptance and looked up a nanosecond after a check 30 s later; or stamped in the future |
| ReplayCache.OutOfOrderCalls | bridge_service/src/main.go:1286-1308 | a failing run: read out of clock order, equal nonces are accepted exactly 30 s apart, when a timestamp of the first acceptance is still fresh |
| Commands.DecimalRoundTrip | bridge_service/src/main.go:49-60 | decimal text consists of digits and denotes its number |
| Commands.FixedInjective | bridge_service/src/main.go:49-60 | the six-decimal text determines the value |
| Commands.ValidatedIsSignable | bridge_service/src/main.go:506-588 | validation leaves a one-line action, a non-negative six-decimal value, a positive timestamp and a 32-character nonce |
| Commands.PayloadInjective | bridge_service/src/main.go:49-60 | commands with those four facts and the same signed text are equal in action, value, target, timestamp and nonce |
| Commands.PayloadReadsBack | bridge_service/src/main.go:49-60 | the signed text of a validated command reads back as action, value, timestamp, nonce and target, each in its place |
| Commands.UnvalidatedPayloadsCollide | bridge_service/src/main.go:49-60 | without validation two different commands can have the same text |
| Commands.EncodeFields | bridge_service/src/main.go:116-126 | the loop writes every field behind its length |
| Commands.FieldsRoundTrip | bridge_service/src/main.go:105-127 | decoding recovers every list of byte strings |
| Commands.ResponsePayload | bridge_service/src/main.go:105-127 | the signed response text decodes to its four fields |
| Connection.Session.Check | bridge_service/src/main.go:1399-1467 | the verdict is that of the first failing check, and the reply carries this request's nonce or none |
| Connection.Session.Serve | bridge_service/src/main.go:1394-1468 | one turn updates counters, cache, rate limit and connection as specified, and replies, unless the read failed, with the nonce of a decoded request met by a healthy installation and else with none |
| Connection.UnexpiredAreLive | bridge_service/src/main.go:1286-1308 | at every lookup of every run the unexpired entries are the nonces accepted on any connection with no lookup since that read past their expiry |
| Connection.DispatchedExactly | bridge_service/src/main.go:1407-1468 | in every run, in any order of clock readings, a command is dispatched exactly if it decoded, met a healthy installation, is valid and authentic, its nonce is not live on any connection, fewer than 4096 are, panic mode allows it and every earlier dispatch on its connection is at least 100 ms older |
| Connection.DispatchedInClockOrder | bridge_service/src/main.go:1407-1468 | in clock order the live nonces there are those accepted in the last 30 s |
| Connection.AcceptedVerdicts | bridge_service/src/main.go:1449-1468 | once its nonce is accepted a request is denied by panic mode unless it only reads, and else dispatched exactly if well spaced |
| Connection.ServeAll | bridge_service/src/main.go:1382-1468 | sessions and one replay cache serving the requests of a run give the verdicts and replies of that run |
| Connection.TurnKeepsConnInv | bridge_service/src/main.go:1391-1468 | the counters count since the last accepted nonce, and dispatches are 100 ms apart |
| Connection.NinthRejectionCloses | bridge_service/src/main.go:1414-1447 | an open connection has at most four failures of each kind, so a ninth rejection in a row closes it |
| Connection.EveryConnectionBehaves | bridge_service/src/main.go:1382-1468 | in every run of the service this holds on every connection |
| Connection.EventsCount | bridge_service/src/main.go:1413-1447 | which events count as invalid, which as unauthenticated, and which start both counts anew, stated on the events |
| Connection.OpenExactly | bridge_service/src/main.go:1394-1447 | in every run a connection is open exactly if on it no read failed, no request was too large or met an unhealthy installation, every response was written, and never were there five invalid or five unauthenticated requests since its last accepted nonce |
| Connection.CacheIsWindow | bridge_service/src/main.go:1286-1308 | in every run of the service in clock order the shared cache is the window on all accepted nonces |
| Connection.NonceAcceptedAgain | bridge_service/src/main.go:1438-1447 | on any connections and in any order of clock readings, a nonce is accepted again exactly if a lookup since then read past its expiry and fewer than 4096 nonces are live |
| Connection.AcceptedFarApart | bridge_service/src/main.go:1438-1447 | in clock order equal nonces on any connections are accepted more than 30 s apart |
| Connection.DispatchedAgainNeedsReading | bridge_service/src/main.go:1422-1468 | a command with the same nonce and timestamp is dispatched again, on any connections and in any order, only if a lookup in between read further ahead of its timestamp check than it was old at the first lookup |
| Connection.DispatchedAgainNeedsDelay | bridge_service/src/main.go:1422-1468 | in clock order only with that much time between its own two readings |
| Connection.DispatchableTwiceExactly | bridge_service/src/main.go:1422-1468 | where no lookup reads more than a lead after the timestamp check of its own or a later request, a second dispatch is possible exactly if the lead exceeds the age at the first lookup |
| Connection.DispatchableInOrderExactly | bridge_service/src/main.go:1422-1468 | in clock order exactly if the delay of the second request does |
| Connection.DelayIsNoProtection | bridge_service/src/main.go:1438-1447 | out of clock order a command can be dispatched twice at any age and with any delay, as long as another valid command exists |
| Connection.BridgeDispatchesTwice | bridge_service/src/main.go:506-588 | all three for every authentic command that validation admits |
| HardwareHealth.AnyControllable | bridge_service/src/fan_control.go:55-62 | finds a channel that is supported, has a valid id and a real backend |
| HardwareHealth.TemperatureAnomalies | bridge_service/src/health.go:118-133 | critical exactly for readings above zero that are invalid or reach 95 °C |
| HardwareHealth.FanAnomalies | bridge_service/src/health.go:134-191 | critical exactly for a stalled controllable channel, or a silent aggregate control without one |
| HardwareHealth.OtherAnomalies | bridge_service/src/health.go:192-208 | the remaining checks only warn |
| HardwareHealth.Fold | bridge_service/src/health.go:210-221 | the state is the highest severity |
| HardwareHealth.Evaluate | bridge_service/src/health.go:117-243 | safety state, recovery action and status from the telemetry, overridden only by an integrity failure |
| HardwareHealth.CheckFanChannel | bridge_service/src/main.go:639-671 | decides the fan-channel gate by the first channel with the id |
| HardwareHealth.CoolFansObey | bridge_service/src/main.go:595-671 | with both sensors in range and below 95 °C every accepted speed passes the gate of a usable control, and only of one |
| HardwareHealth.BlindFansAreLocked | bridge_service/src/main.go:595-598 | without thermal telemetry no fan command passes |
| HardwareHealth.EmergencyCoolingGates | bridge_service/src/main.go:595-671 | when emergency cooling is recommended, full speed is refused exactly if the other sensor is out of range, or no aggregate control is usable and every controllable channel is behind an unusable one with its id; lower speeds never pass |
| HardwareHealth.EmergencyCoolingReachable | bridge_service/src/main.go:595-671 | it does with temperatures in range, distinct ids and a real aggregate backend |
| HardwareHealth.EmergencyCoolingRefused | bridge_service/src/health.go:226-231 | a second sensor out of range closes every gate |
| HardwareHealth.EmergencyCoolingShadowed | bridge_service/src/main.go:654-664 | and so does a monitor-only channel listed before the controllable one with its id |
| FanControl.DutyOfPercent | bridge_service/src/fan_control_linux.go:240-247 | the duty is the floor of percent·255/100, in 0..255, monotone, and 255 only at 100% |
| FanControl.SupportedTargets | bridge_service/src/fan_control_linux.go:199-208 | keeps the supported targets in order |
| FanControl.FirstSupported | bridge_service/src/fan_control_linux.go:199-271 | the target a channel command writes is the first supported one with its id in discovery order |
| FanControl.Hwmon.SetChannel | bridge_service/src/fan_control_linux.go:254-271 | writes the first target with the id, exactly if it is supported and writable |
| FanControl.Hwmon.SetFan | bridge_service/src/fan_control_linux.go:277-286 | writes the only supported target, if there is exactly one |
| FanControl.IsListed | bridge_service/src/main.go:691-700 | finds a supported channel with the id |
| FanControl.Hwmon.Execute | bridge_service/src/main.go:673-705 | a refused command writes nothing; an executed one passed its gate and wrote one file of a supported target, 255 under a critical temperature |
| FanControl.EmergencyCoolingExecutes | bridge_service/src/main.go:595-705 | when emergency cooling is recommended, some full-speed command is executed and writes 255 exactly if panic mode is off, the other sensor is in range and the aggregate control or a channel is ready; no lower speed is executed |
| TelemetryCsv.TrimIsIdentity | tools/telemetry-analyzer/src/main.rs:32-42 | trimming changes a string exactly if it has white space at an end |
| TelemetryCsv.TrimIsExact | tools/telemetry-analyzer/src/main.rs:32-42 | trimming leaves the text between the first and the last character that is not white space |
| TelemetryCsv.TrimmedBounds | tools/telemetry-analyzer/src/main.rs:32-42 | every text has such bounds |
| TelemetryCsv.ParseLine | tools/telemetry-analyzer/src/main.rs:18-44 | the character loop computes the scan |
| TelemetryCsv.WriteThenRead | tools/telemetry-analyzer/src/main.rs:18-44 | reading a line written by section 2 of RFC 4180, with any choice of quoted and bare fields, gives the fields trimmed, hence the same fields exactly if all are trimmed |
| TelemetryCsv.QuotedBlankIsLost | tools/telemetry-analyzer/src/main.rs:32-42 | a failing input: a quoted blank comes back empty |
| TelemetryCsv.FieldCount | tools/telemetry-analyzer/src/main.rs:18-44 | a line fails exactly on an odd number of quotes, else it has one field more than commas outside quotes |

## Left out

- Float rounding, overflow and the resets for delays that are not finite; the decimal constants and PWM products are exact.
- The values of sine, cosine, exponential and logarithm, which are parameters; twiddle steps and the K-weighting sections are parameters too.
- Window function, magnitude scaling, peak search, RMS and peak levels of the analyzer, and the per-block levels of the engine.
- SpectrumQueue indices do not wrap: 64-bit counters would need 2^64 frames.
- The moment the loudness-available flags turn false.
- Device opening, enumeration, notifications, thread creation and callback timing counters.
- Connection.Session.Serve: what a dispatched command then does, other than fan commands, and the text of responses.
- Commands: JSON tokenising, duplicate-key rejection and the audio configuration inside a target; white-space and length checks on the action follow from the list of supported actions.
- FanControl.Hwmon.WriteTarget: a failed write is taken to leave the file as it was.
- HMAC, SHA-256, hex and base64, key files, the directory walk and the atomic replacement of the state file.
- The capability table and the message texts of the health evaluation.
- Fan target discovery in sysfs and the uniqueness of hashed channel ids.
- The row loop of the telemetry analyzer, its number parsing and running maxima: easy members only.
- Sensor, battery, storage, driver and identity collectors, game mode, power modes, updates, inference, website and installers.
