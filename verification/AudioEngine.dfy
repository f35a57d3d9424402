/** The stateful DSP chain: gain, gate, high-pass, three equalizer bands, compressor and limiter. */
module AudioEngine {
  import opened Signals
  import opened EngineTuning
  import Compressor

  function LinearToDb(m: Maths, x: real): real {
    if x <= 0.0 then -120.0 else 20.0 * m.log10(x)
  }

  /** A configuration after clamping, with the filter sections and envelope coefficients derived from it. */
  datatype Config = Config(
    inputGainDb: real,
    noiseGateEnabled: bool, gateThresholdDb: real,
    highPassEnabled: bool, highPass: Coefficients,
    eqEnabled: seq<bool>, eq: seq<Coefficients>,
    compressorEnabled: bool, compressorThresholdDb: real, compressorRatio: real, compressorKneeDb: real,
    attack: real, release: real,
    limiterEnabled: bool, limiterCeilingDb: real)

  predicate ValidConfig(c: Config) {
    |c.eqEnabled| == |c.eq| == 3 && 1.0 <= c.compressorRatio <= 20.0 && 0.0 <= c.compressorKneeDb <= 24.0
  }

  /** A configuration as requested; any number may be out of range or not finite. */
  datatype Requested = Requested(
    inputGainDb: Sample, noiseGateEnabled: bool, gateThresholdDb: Sample, highPassEnabled: bool, highPassHz: Sample,
    eqEnabled: seq<bool>, bands: seq<RequestedBand>,
    compressorEnabled: bool, compressorThresholdDb: Sample, compressorRatio: Sample, compressorKneeDb: Sample,
    attackMs: Sample, releaseMs: Sample, limiterEnabled: bool, limiterCeilingDb: Sample)
  {
    predicate LevelsInRange() {
      && Within(inputGainDb, -90.0, 12.0) && Within(gateThresholdDb, -90.0, 0.0)
      && Within(compressorThresholdDb, -90.0, 0.0) && Within(compressorRatio, 1.0, 20.0)
      && Within(compressorKneeDb, 0.0, 24.0) && Within(limiterCeilingDb, -24.0, 0.0)
    }

    predicate TuningInRange(rate: real) {
      && Within(attackMs, 0.1, 200.0) && Within(releaseMs, 1.0, 2000.0) && Within(highPassHz, 20.0, rate * 0.4)
      && forall i :: 0 <= i < |bands| ==> BandInRange(bands[i], rate)
    }

    predicate SameLevels(c: Config)
      requires LevelsInRange()
    {
      && c.inputGainDb == inputGainDb.value && c.gateThresholdDb == gateThresholdDb.value
      && c.compressorThresholdDb == compressorThresholdDb.value && c.compressorRatio == compressorRatio.value
      && c.compressorKneeDb == compressorKneeDb.value && c.limiterCeilingDb == limiterCeilingDb.value
    }

    predicate SameTuning(t: Tuning, rate: real)
      requires TuningInRange(rate)
    {
      && t.attackMs == attackMs.value && t.releaseMs == releaseMs.value && t.highPassHz == highPassHz.value
      && |t.bands| == |bands| && forall i :: 0 <= i < |bands| ==>
           t.bands[i] == Band(bands[i].frequencyHz.value, bands[i].gainDb.value, bands[i].q.value)
    }

    predicate SameSwitches(c: Config) {
      && c.noiseGateEnabled == noiseGateEnabled && c.highPassEnabled == highPassEnabled
      && c.compressorEnabled == compressorEnabled && c.limiterEnabled == limiterEnabled && c.eqEnabled == eqEnabled
    }
  }

  const DEFAULTS: Requested :=
    Requested(Finite(0.0), false, Finite(-72.0), false, Finite(80.0), [false, false, false],
              [RequestedBand(Finite(100.0), Finite(0.0), Finite(0.707)),
               RequestedBand(Finite(1000.0), Finite(0.0), Finite(0.707)),
               RequestedBand(Finite(8000.0), Finite(0.0), Finite(0.707))],
              false, Finite(-12.0), Finite(2.0), Finite(6.0), Finite(10.0), Finite(100.0), true, Finite(-1.0))

  /** The controls that the sections and the envelope coefficients are computed from, after clamping. */
  datatype Tuning = Tuning(attackMs: real, releaseMs: real, highPassHz: real, bands: seq<Band>)

  predicate SafeTuning(t: Tuning, rate: real) {
    && 8000.0 <= rate <= 192000.0
    && 0.1 <= t.attackMs <= 200.0 && 1.0 <= t.releaseMs <= 2000.0 && 20.0 <= t.highPassHz <= rate * 0.4
    && |t.bands| == 3 && forall i :: 0 <= i < 3 ==> SafeBand(t.bands[i], rate)
  }

  /** Sections and coefficients are those of the clamped controls. */
  predicate Derived(m: Maths, c: Config, t: Tuning, rate: real)
    requires SafeTuning(t, rate)
  {
    && c.highPass == HighPassAt(m, t.highPassHz, rate)
    && |c.eq| == 3 && (forall i :: 0 <= i < 3 ==> c.eq[i] == PeakingAt(m, t.bands[i], rate))
    && c.attack == Smoothing(m, t.attackMs, rate) && c.release == Smoothing(m, t.releaseMs, rate)
  }

  function Sections(m: Maths, bands: seq<Band>, rate: real): (r: seq<Coefficients>)
    requires rate > 0.0
    ensures |r| == |bands| && forall i :: 0 <= i < |r| ==> r[i] == PeakingAt(m, bands[i], rate)
  {
    seq(|bands|, i requires 0 <= i < |bands| => PeakingAt(m, bands[i], rate))
  }

  /** The levels inside their ranges. */
  predicate SafeLevels(c: Config) {
    && -90.0 <= c.inputGainDb <= 12.0 && -90.0 <= c.gateThresholdDb <= 0.0 && -90.0 <= c.compressorThresholdDb <= 0.0
    && -24.0 <= c.limiterCeilingDb <= 0.0
  }

  /** Each level is what was requested, moved to the nearest bound of its range, or its default if it was not finite. */
  predicate LevelsClamped(r: Requested, c: Config) {
    && c.inputGainDb == ClampOr(r.inputGainDb, 0.0, -90.0, 12.0)
    && c.gateThresholdDb == ClampOr(r.gateThresholdDb, -72.0, -90.0, 0.0)
    && c.compressorThresholdDb == ClampOr(r.compressorThresholdDb, -12.0, -90.0, 0.0)
    && c.compressorRatio == ClampOr(r.compressorRatio, 2.0, 1.0, 20.0)
    && c.compressorKneeDb == ClampOr(r.compressorKneeDb, 6.0, 0.0, 24.0)
    && c.limiterCeilingDb == ClampOr(r.limiterCeilingDb, -1.0, -24.0, 0.0)
  }

  /** And so is each control of the sections and the envelope. */
  predicate TuningClamped(r: Requested, t: Tuning, rate: real)
    requires rate >= 8000.0
  {
    && t.attackMs == ClampOr(r.attackMs, 10.0, 0.1, 200.0) && t.releaseMs == ClampOr(r.releaseMs, 100.0, 1.0, 2000.0)
    && t.highPassHz == ClampOr(r.highPassHz, 80.0, 20.0, rate * 0.4)
    && |t.bands| == |r.bands| && forall i :: 0 <= i < |t.bands| ==>
         && t.bands[i].frequencyHz == ClampOr(r.bands[i].frequencyHz, 1000.0, 10.0, rate * 0.45)
         && t.bands[i].gainDb == ClampOr(r.bands[i].gainDb, 0.0, -24.0, 24.0)
         && t.bands[i].q == ClampOr(r.bands[i].q, 0.707, 0.1, 20.0)
  }

  function ClampConfig(m: Maths, requested: Requested, t: Tuning, rate: real): (c: Config)
    requires |requested.eqEnabled| == 3 && SafeTuning(t, rate)
    ensures ValidConfig(c) && SafeLevels(c) && Derived(m, c, t, rate) && LevelsClamped(requested, c)
    ensures requested.SameSwitches(c) && (requested.LevelsInRange() ==> requested.SameLevels(c))
  {
    Config(
      ClampOr(requested.inputGainDb, 0.0, -90.0, 12.0),
      requested.noiseGateEnabled, ClampOr(requested.gateThresholdDb, -72.0, -90.0, 0.0),
      requested.highPassEnabled, HighPassAt(m, t.highPassHz, rate), requested.eqEnabled, Sections(m, t.bands, rate),
      requested.compressorEnabled, ClampOr(requested.compressorThresholdDb, -12.0, -90.0, 0.0),
      ClampOr(requested.compressorRatio, 2.0, 1.0, 20.0), ClampOr(requested.compressorKneeDb, 6.0, 0.0, 24.0),
      Smoothing(m, t.attackMs, rate), Smoothing(m, t.releaseMs, rate),
      requested.limiterEnabled, ClampOr(requested.limiterCeilingDb, -1.0, -24.0, 0.0))
  }

  /** The envelope coefficients of a configuration lie between zero and one. */
  lemma {:induction false} DerivedEnvelope(m: Maths, c: Config, t: Tuning, rate: real)
    requires SafeTuning(t, rate) && Derived(m, c, t, rate) && Decays(m)
    ensures 0.0 < c.attack < 1.0 && 0.0 < c.release < 1.0
  {
    SmoothingIsProper(m, t.attackMs, rate);
    SmoothingIsProper(m, t.releaseMs, rate);
  }

  /** What one channel carries from sample to sample. */
  datatype Channel = Channel(highPass: Delay, eq: seq<Delay>, envelope: real)

  const QUIET: Channel := Channel(SILENT, [SILENT, SILENT, SILENT], 0.0)

  // ----- one sample

  /** The first n equalizer bands. */
  function Equalize(c: Config, d: seq<Delay>, x: real, n: nat): (r: (real, seq<Delay>))
    requires ValidConfig(c) && |d| == 3 && n <= 3
    ensures |r.1| == 3
  {
    if n == 0 then (x, d)
    else
      var (v, e) := Equalize(c, d, x, n - 1);
      if c.eqEnabled[n - 1] then
        var (y, z) := Tick(c.eq[n - 1], e[n - 1], v);
        (y, e[n - 1 := z])
      else (v, e)
  }

  /** The envelope follower: a convex combination of the old envelope and the magnitude. */
  function Follow(c: Config, envelope: real, magnitude: real): real {
    var k := if magnitude > envelope then c.attack else c.release;
    Blend(k, envelope, magnitude)
  }

  function Blend(k: real, a: real, b: real): real {
    k * a + (1.0 - k) * b
  }

  function Compress(m: Maths, c: Config, envelope: real, x: real): real
    requires ValidConfig(c)
  {
    var over := LinearToDb(m, envelope) - c.compressorThresholdDb;
    var reduction := Compressor.GainReduction(over, c.compressorKneeDb, c.compressorRatio);
    if reduction > 0.0 then Amplify(x, m.dbToLinear(-reduction)) else x
  }

  /** Whether the noise gate silences a sample. */
  predicate Silences(m: Maths, c: Config, s: Sample) {
    c.noiseGateEnabled && Abs(Amplify(Sanitize(s), m.dbToLinear(c.inputGainDb))) < m.dbToLinear(c.gateThresholdDb)
  }

  /** Input gain and noise gate. */
  function Gated(m: Maths, c: Config, s: Sample): real {
    if Silences(m, c, s) then 0.0 else Amplify(Sanitize(s), m.dbToLinear(c.inputGainDb))
  }

  function Amplify(x: real, gain: real): real {
    x * gain
  }

  function HighPassed(c: Config, d: Delay, x: real): (real, Delay) {
    if c.highPassEnabled then Tick(c.highPass, d, x) else (x, d)
  }

  /** A sample on its way to the limiter, and the channel after it. */
  function BeforeLimiter(m: Maths, c: Config, ch: Channel, s: Sample): (r: (real, Channel))
    requires ValidConfig(c) && |ch.eq| == 3
    ensures |r.1.eq| == 3
  {
    var (h, highPass) := HighPassed(c, ch.highPass, Gated(m, c, s));
    var (v, eq) := Equalize(c, ch.eq, h, 3);
    if c.compressorEnabled then
      var envelope := Follow(c, ch.envelope, Abs(v));
      (Compress(m, c, envelope, v), Channel(highPass, eq, envelope))
    else (v, Channel(highPass, eq, ch.envelope))
  }

  predicate Exceeds(m: Maths, c: Config, x: real) {
    c.limiterEnabled && Abs(x) > m.dbToLinear(c.limiterCeilingDb)
  }

  function Limit(m: Maths, c: Config, x: real): real {
    var ceiling := m.dbToLinear(c.limiterCeilingDb);
    if !Exceeds(m, c, x) then x else if x < -ceiling then -ceiling else ceiling
  }

  // ----- a stream

  /** Left samples are at even positions, right samples at odd ones. */
  datatype Outcome = Outcome(outputs: seq<real>, channels: seq<Channel>, limited: nat)

  predicate ValidChannels(channels: seq<Channel>) {
    |channels| == 2 && |channels[0].eq| == 3 && |channels[1].eq| == 3
  }

  /** The engine on a stream that starts with a left sample. */
  function Run(m: Maths, c: Config, channels: seq<Channel>, samples: seq<Sample>): (r: Outcome)
    requires ValidConfig(c) && ValidChannels(channels)
    ensures ValidChannels(r.channels) && |r.outputs| == |samples|
    decreases |samples|
  {
    if samples == [] then Outcome([], channels, 0)
    else
      var n := |samples| - 1;
      Advance(m, c, Run(m, c, channels, samples[..n]), n % 2, samples[n])
  }

  /** One more sample, on a given channel. */
  function Advance(m: Maths, c: Config, before: Outcome, channel: nat, s: Sample): (r: Outcome)
    requires ValidConfig(c) && ValidChannels(before.channels) && channel < 2
    ensures ValidChannels(r.channels) && |r.outputs| == |before.outputs| + 1
  {
    var (x, ch) := BeforeLimiter(m, c, before.channels[channel], s);
    Outcome(before.outputs + [Limit(m, c, x)], before.channels[channel := ch],
            before.limited + if Exceeds(m, c, x) then 1 else 0)
  }

  function Append(first: Outcome, second: Outcome): Outcome {
    Outcome(first.outputs + second.outputs, second.channels, first.limited + second.limited)
  }

  /** The stream ab gives what `first` and then b give. */
  ghost predicate Splits(m: Maths, c: Config, channels: seq<Channel>, first: Outcome, ab: seq<Sample>, b: seq<Sample>)
    requires ValidConfig(c) && ValidChannels(channels) && ValidChannels(first.channels)
  {
    Run(m, c, channels, ab) == Append(first, Run(m, c, first.channels, b))
  }

  /** Processing a stream in two calls, cut between stereo frames, is processing it in one. */
  lemma {:induction false} RunSplits(m: Maths, c: Config, channels: seq<Channel>, a: seq<Sample>, b: seq<Sample>)
    requires ValidConfig(c) && ValidChannels(channels) && |a| % 2 == 0
    ensures Run(m, c, channels, a + b)
         == Append(Run(m, c, channels, a), Run(m, c, Run(m, c, channels, a).channels, b))
  {
    var first := Run(m, c, channels, a);
    assert first.outputs + [] == first.outputs;
    SplitAfter(m, c, channels, first, a, b, a + b);
  }

  lemma {:induction false} SplitAfter(m: Maths, c: Config, channels: seq<Channel>, first: Outcome,
                                      a: seq<Sample>, b: seq<Sample>, ab: seq<Sample>)
    requires ValidConfig(c) && ValidChannels(channels) && ValidChannels(first.channels) && |a| % 2 == 0 && ab == a + b
    requires Splits(m, c, channels, first, a, [])
    ensures Splits(m, c, channels, first, ab, b)
    decreases |b|
  {
    if b == [] {
      assert ab == a;
    } else {
      var b0, s := b[..|b| - 1], b[|b| - 1];
      var ab0 := a + b0;
      assert |ab0| % 2 == |b0| % 2 && b0 + [s] == b && ab0 + [s] == ab;
      SplitAfter(m, c, channels, first, a, b0, ab0);
      SplitOneMore(m, c, channels, first, ab0, b0, s);
    }
  }

  lemma {:induction false} SplitOneMore(m: Maths, c: Config, channels: seq<Channel>, first: Outcome,
                                        ab: seq<Sample>, b: seq<Sample>, s: Sample)
    requires ValidConfig(c) && ValidChannels(channels) && ValidChannels(first.channels) && |ab| % 2 == |b| % 2
    requires Splits(m, c, channels, first, ab, b)
    ensures Splits(m, c, channels, first, ab + [s], b + [s])
  {
    RunOneMore(m, c, channels, ab, s);
    RunOneMore(m, c, first.channels, b, s);
    AdvanceAppends(m, c, first, Run(m, c, first.channels, b), |b| % 2, s);
  }

  lemma {:induction false} RunOneMore(m: Maths, c: Config, channels: seq<Channel>, a: seq<Sample>, s: Sample)
    requires ValidConfig(c) && ValidChannels(channels)
    ensures Run(m, c, channels, a + [s]) == Advance(m, c, Run(m, c, channels, a), |a| % 2, s)
  {
    assert (a + [s])[..|a|] == a;
  }

  lemma {:induction false} AdvanceAppends(m: Maths, c: Config, first: Outcome, second: Outcome, channel: nat, s: Sample)
    requires ValidConfig(c) && ValidChannels(second.channels) && channel < 2
    ensures Advance(m, c, Append(first, second), channel, s) == Append(first, Advance(m, c, second, channel, s))
  {
    var x := BeforeLimiter(m, c, second.channels[channel], s).0;
    assert first.outputs + second.outputs + [Limit(m, c, x)] == first.outputs + (second.outputs + [Limit(m, c, x)]);
  }

  // ----- any partition into blocks

  ghost predicate WholeFrames(blocks: seq<seq<Sample>>) {
    forall i :: 0 <= i < |blocks| ==> |blocks[i]| % 2 == 0
  }

  function Flatten(blocks: seq<seq<Sample>>): seq<Sample> {
    if blocks == [] then [] else blocks[0] + Flatten(blocks[1..])
  }

  /** One call per block, each starting from the channels the call before left. */
  function RunBlocks(m: Maths, c: Config, channels: seq<Channel>, blocks: seq<seq<Sample>>): (r: Outcome)
    requires ValidConfig(c) && ValidChannels(channels)
    ensures ValidChannels(r.channels)
    decreases |blocks|
  {
    if blocks == [] then Outcome([], channels, 0)
    else
      var first := Run(m, c, channels, blocks[0]);
      var rest := RunBlocks(m, c, first.channels, blocks[1..]);
      Outcome(first.outputs + rest.outputs, rest.channels, first.limited + rest.limited)
  }

  /** Output samples, delays, envelopes and the limited count do not depend on the partition. */
  lemma {:induction false} PartitionInvisible(m: Maths, c: Config, channels: seq<Channel>, blocks: seq<seq<Sample>>)
    requires ValidConfig(c) && ValidChannels(channels) && WholeFrames(blocks)
    ensures RunBlocks(m, c, channels, blocks) == Run(m, c, channels, Flatten(blocks))
    decreases |blocks|
  {
    if blocks != [] {
      PartitionInvisible(m, c, Run(m, c, channels, blocks[0]).channels, blocks[1..]);
      RunSplits(m, c, channels, blocks[0], Flatten(blocks[1..]));
    }
  }

  // ----- the noise gate

  /** A stream with the samples below the gate threshold replaced by zero. */
  function Zeroed(m: Maths, c: Config, samples: seq<Sample>): (r: seq<Sample>)
    ensures |r| == |samples|
    ensures forall i :: 0 <= i < |r| ==> r[i] == if Silences(m, c, samples[i]) then Finite(0.0) else samples[i]
  {
    seq(|samples|, i requires 0 <= i < |samples| => if Silences(m, c, samples[i]) then Finite(0.0) else samples[i])
  }

  function Ungated(c: Config): Config {
    c.(noiseGateEnabled := false)
  }

  lemma {:induction false} EqualizeUngated(c: Config, d: seq<Delay>, x: real, n: nat)
    requires ValidConfig(c) && |d| == 3 && n <= 3
    ensures Equalize(Ungated(c), d, x, n) == Equalize(c, d, x, n)
    decreases n
  {
    if n > 0 {
      EqualizeUngated(c, d, x, n - 1);
    }
  }

  lemma {:induction false} GatedIsZeroed(m: Maths, c: Config, s: Sample)
    ensures Gated(m, Ungated(c), if Silences(m, c, s) then Finite(0.0) else s) == Gated(m, c, s)
  {
  }

  lemma {:induction false} ChainUngated(m: Maths, c: Config, ch: Channel, s: Sample, z: Sample)
    requires ValidConfig(c) && |ch.eq| == 3 && Gated(m, Ungated(c), z) == Gated(m, c, s)
    ensures BeforeLimiter(m, Ungated(c), ch, z) == BeforeLimiter(m, c, ch, s)
  {
    EqualizeUngated(c, ch.eq, HighPassed(c, ch.highPass, Gated(m, c, s)).0, 3);
  }

  lemma {:induction false} AdvanceUngated(m: Maths, c: Config, before: Outcome, channel: nat, s: Sample, z: Sample)
    requires ValidConfig(c) && ValidChannels(before.channels) && channel < 2
    requires z == if Silences(m, c, s) then Finite(0.0) else s
    ensures Advance(m, Ungated(c), before, channel, z) == Advance(m, c, before, channel, s)
  {
    GatedIsZeroed(m, c, s);
    ChainUngated(m, c, before.channels[channel], s, z);
  }

  ghost predicate ZeroedAt(m: Maths, c: Config, s: Sample, z: Sample) {
    z == if Silences(m, c, s) then Finite(0.0) else s
  }

  /** One sample more on two streams that the engine treats alike, with and without the gate. */
  lemma {:induction false} UngatedOneMore(m: Maths, c: Config, channels: seq<Channel>, a: seq<Sample>, z: seq<Sample>,
                                          s: Sample, quiet: Sample, more: seq<Sample>, zeroed: seq<Sample>)
    requires ValidConfig(c) && ValidChannels(channels) && |a| == |z| && ZeroedAt(m, c, s, quiet)
    requires Run(m, c, channels, a) == Run(m, Ungated(c), channels, z) && more == a + [s] && zeroed == z + [quiet]
    ensures Run(m, c, channels, more) == Run(m, Ungated(c), channels, zeroed)
  {
    RunOneMore(m, c, channels, a, s);
    RunOneMore(m, Ungated(c), channels, z, quiet);
    AdvanceUngated(m, c, Run(m, c, channels, a), |a| % 2, s, quiet);
  }

  lemma {:induction false} UngatedUpTo(m: Maths, c: Config, channels: seq<Channel>, a: seq<Sample>, z: seq<Sample>, n: nat)
    requires ValidConfig(c) && ValidChannels(channels) && n <= |a| == |z|
    requires forall i :: 0 <= i < |a| ==> ZeroedAt(m, c, a[i], z[i])
    ensures Run(m, c, channels, a[..n]) == Run(m, Ungated(c), channels, z[..n])
    decreases n
  {
    if n > 0 {
      UngatedUpTo(m, c, channels, a, z, n - 1);
      UngatedOneMore(m, c, channels, a[..n - 1], z[..n - 1], a[n - 1], z[n - 1], a[..n], z[..n]);
    }
  }

  /** The gate does exactly this: the engine with the gate on gives, from any state, what it gives with the gate off
      on the stream whose samples below the threshold are replaced by zero. */
  lemma {:induction false} GateZeroesQuietSamples(m: Maths, c: Config, channels: seq<Channel>, samples: seq<Sample>)
    requires ValidConfig(c) && ValidChannels(channels)
    ensures Run(m, c, channels, samples) == Run(m, Ungated(c), channels, Zeroed(m, c, samples))
  {
    var z := Zeroed(m, c, samples);
    UngatedUpTo(m, c, channels, samples, z, |samples|);
    assert samples[..|samples|] == samples && z[..|samples|] == z;
  }

  lemma {:induction false} TickOfSilence(c: Coefficients)
    ensures Tick(c, SILENT, 0.0) == (0.0, SILENT)
  {
    var r := Tick(c, SILENT, 0.0);
    assert r.0 == 0.0;
    assert r.1.z1 == 0.0 && r.1.z2 == 0.0;
    assert r.1 == SILENT;
  }

  lemma {:induction false} EqualizeSilence(c: Config, n: nat)
    requires ValidConfig(c) && n <= 3
    ensures Equalize(c, QUIET.eq, 0.0, n) == (0.0, QUIET.eq)
    decreases n
  {
    if n > 0 {
      EqualizeSilence(c, n - 1);
      TickOfSilence(c.eq[n - 1]);
      assert QUIET.eq[n - 1 := SILENT] == QUIET.eq;
    }
  }

  lemma {:induction false} CompressSilence(m: Maths, c: Config)
    requires ValidConfig(c)
    ensures Follow(c, 0.0, 0.0) == 0.0 && forall envelope :: Compress(m, c, envelope, 0.0) == 0.0
  {
    assert forall gain :: Amplify(0.0, gain) == 0.0;
  }

  lemma {:induction false} ChainOfSilence(m: Maths, c: Config, s: Sample)
    requires ValidConfig(c) && Silences(m, c, s)
    ensures BeforeLimiter(m, c, QUIET, s) == (0.0, QUIET)
  {
    TickOfSilence(c.highPass);
    EqualizeSilence(c, 3);
    CompressSilence(m, c);
    assert HighPassed(c, SILENT, 0.0) == (0.0, SILENT);
  }

  /** From a cleared state, a stream that stays below the gate threshold comes out as silence and leaves no trace in
      the filters and envelopes. */
  lemma {:induction false} QuietStreamIsSilent(m: Maths, c: Config, samples: seq<Sample>)
    requires ValidConfig(c) && m.dbToLinear(c.limiterCeilingDb) >= 0.0
    requires forall i :: 0 <= i < |samples| ==> Silences(m, c, samples[i])
    ensures var r := Run(m, c, [QUIET, QUIET], samples);
            r.channels == [QUIET, QUIET] && r.limited == 0 && forall i :: 0 <= i < |samples| ==> r.outputs[i] == 0.0
    decreases |samples|
  {
    if samples != [] {
      var n := |samples| - 1;
      QuietStreamIsSilent(m, c, samples[..n]);
      ChainOfSilence(m, c, samples[n]);
      assert [QUIET, QUIET][n % 2 := QUIET] == [QUIET, QUIET];
      assert Limit(m, c, 0.0) == 0.0 && !Exceeds(m, c, 0.0);
    }
  }

  // ----- the limiter

  /** What reaches the limiter at a position of a stream. */
  function UnlimitedAt(m: Maths, c: Config, channels: seq<Channel>, samples: seq<Sample>, n: nat): real
    requires ValidConfig(c) && ValidChannels(channels) && n < |samples|
  {
    BeforeLimiter(m, c, Run(m, c, channels, samples[..n]).channels[n % 2], samples[n]).0
  }

  function Unlimited(m: Maths, c: Config, channels: seq<Channel>, samples: seq<Sample>): (r: seq<real>)
    requires ValidConfig(c) && ValidChannels(channels)
    ensures |r| == |samples|
    ensures forall n :: 0 <= n < |samples| ==> r[n] == UnlimitedAt(m, c, channels, samples, n)
  {
    seq(|samples|, n requires 0 <= n < |samples| => UnlimitedAt(m, c, channels, samples, n))
  }

  function CountAbove(xs: seq<real>, ceiling: real): nat {
    if xs == [] then 0
    else CountAbove(xs[..|xs| - 1], ceiling) + if Abs(xs[|xs| - 1]) > ceiling then 1 else 0
  }

  /** The outputs and the limited count are those of the values that reached the limiter. */
  ghost predicate Limits(m: Maths, c: Config, r: Outcome, pre: seq<real>) {
    && |r.outputs| == |pre| && (forall i :: 0 <= i < |pre| ==> r.outputs[i] == Limit(m, c, pre[i]))
    && r.limited == if c.limiterEnabled then CountAbove(pre, m.dbToLinear(c.limiterCeilingDb)) else 0
  }

  lemma {:induction false} LimitsOneMore(m: Maths, c: Config, r: Outcome, pre: seq<real>, channel: nat, s: Sample)
    requires ValidConfig(c) && ValidChannels(r.channels) && channel < 2 && Limits(m, c, r, pre)
    ensures Limits(m, c, Advance(m, c, r, channel, s), pre + [BeforeLimiter(m, c, r.channels[channel], s).0])
  {
    var x := BeforeLimiter(m, c, r.channels[channel], s).0;
    assert (pre + [x])[..|pre|] == pre;
  }

  lemma {:induction false} RunLimitsNext(m: Maths, c: Config, channels: seq<Channel>, samples: seq<Sample>, pre: seq<real>, n: nat)
    requires ValidConfig(c) && ValidChannels(channels) && n < |samples| && pre == Unlimited(m, c, channels, samples)
    requires Limits(m, c, Run(m, c, channels, samples[..n]), pre[..n])
    ensures Limits(m, c, Run(m, c, channels, samples[..n + 1]), pre[..n + 1])
  {
    LimitsOneMore(m, c, Run(m, c, channels, samples[..n]), pre[..n], n % 2, samples[n]);
    RunNext(m, c, channels, samples, n);
    assert pre[n] == UnlimitedAt(m, c, channels, samples, n);
    assert pre[..n + 1] == pre[..n] + [pre[n]];
  }

  lemma {:induction false} RunLimitsUpTo(m: Maths, c: Config, channels: seq<Channel>, samples: seq<Sample>, n: nat)
    requires ValidConfig(c) && ValidChannels(channels) && n <= |samples|
    ensures Limits(m, c, Run(m, c, channels, samples[..n]), Unlimited(m, c, channels, samples)[..n])
    decreases n
  {
    if n > 0 {
      RunLimitsUpTo(m, c, channels, samples, n - 1);
      RunLimitsNext(m, c, channels, samples, Unlimited(m, c, channels, samples), n - 1);
    }
  }

  /** The outputs and the limited count from what reaches the limiter. */
  lemma {:induction false} RunLimits(m: Maths, c: Config, channels: seq<Channel>, samples: seq<Sample>)
    requires ValidConfig(c) && ValidChannels(channels)
    ensures var r, pre := Run(m, c, channels, samples), Unlimited(m, c, channels, samples);
            && (forall i :: 0 <= i < |samples| ==> r.outputs[i] == Limit(m, c, pre[i]))
            && r.limited == if c.limiterEnabled then CountAbove(pre, m.dbToLinear(c.limiterCeilingDb)) else 0
  {
    RunLimitsUpTo(m, c, channels, samples, |samples|);
    assert samples[..|samples|] == samples;
    assert Unlimited(m, c, channels, samples)[..|samples|] == Unlimited(m, c, channels, samples);
  }

  /** With the limiter on no output exceeds the ceiling, samples within it pass unchanged, and the count
      is that of the samples that exceeded it. */
  lemma {:induction false} LimiterIsExact(m: Maths, c: Config, channels: seq<Channel>, samples: seq<Sample>)
    requires ValidConfig(c) && ValidChannels(channels) && c.limiterEnabled
    requires m.dbToLinear(c.limiterCeilingDb) >= 0.0
    ensures var r, pre, ceiling := Run(m, c, channels, samples), Unlimited(m, c, channels, samples),
                                   m.dbToLinear(c.limiterCeilingDb);
            && r.limited == CountAbove(pre, ceiling)
            && (forall i :: 0 <= i < |samples| ==>
                  && -ceiling <= r.outputs[i] <= ceiling
                  && (Abs(pre[i]) <= ceiling ==> r.outputs[i] == pre[i])
                  && (pre[i] > ceiling ==> r.outputs[i] == ceiling)
                  && (pre[i] < -ceiling ==> r.outputs[i] == -ceiling))
  {
    RunLimits(m, c, channels, samples);
  }

  // ----- the envelope

  lemma {:induction false} ShareOf(k: real, d: real)
    requires 0.0 <= k <= 1.0 && d >= 0.0
    ensures 0.0 <= k * d <= d
  {
    var rest := 1.0 - k;
    assert k * d >= 0.0;
    assert rest * d >= 0.0;
    assert rest * d == d - k * d;
  }

  lemma {:induction false} Mix(k: real, a: real, b: real)
    requires 0.0 <= k <= 1.0 && a <= b
    ensures a <= Blend(k, a, b) <= b && a <= Blend(k, b, a) <= b
  {
    ShareOf(k, b - a);
    assert k * (b - a) == k * b - k * a;
    assert (1.0 - k) * b == b - k * b;
    assert (1.0 - k) * a == a - k * a;
  }

  /** With coefficients in [0, 1] the envelope stays between its old value and the magnitude. */
  lemma {:induction false} EnvelopeBetween(c: Config, envelope: real, magnitude: real)
    requires 0.0 <= c.attack <= 1.0 && 0.0 <= c.release <= 1.0
    ensures var next := Follow(c, envelope, magnitude);
            if envelope <= magnitude then envelope <= next <= magnitude else magnitude <= next <= envelope
  {
    if envelope <= magnitude {
      Mix(c.attack, envelope, magnitude);
      Mix(c.release, envelope, magnitude);
    } else {
      Mix(c.release, magnitude, envelope);
    }
  }

  // ----- the engine

  datatype AudioMetrics = AudioMetrics(clippedSamples: nat, processedFrames: nat)

  class Engine {
    const maths: Maths
    var config: Config
    var tuning: Tuning
    var sampleRate: real
    var channels: seq<Channel>
    var metrics: AudioMetrics

    ghost predicate Valid()
      reads this
    {
      ValidConfig(config) && ValidChannels(channels)
    }

    /** A new engine has the default configuration at 48 kHz. */
    constructor (maths: Maths)
      ensures Valid() && this.maths == maths && channels == [QUIET, QUIET] && metrics == AudioMetrics(0, 0)
      ensures DEFAULTS.SameSwitches(config) && SafeTuning(tuning, sampleRate) && Derived(maths, config, tuning, sampleRate)
    {
      this.maths := maths;
      new;
      var _ := Configure(DEFAULTS, Finite(48000.0));
    }

    /** Every band moved into its range. */
    method ClampBands(requested: seq<RequestedBand>, rate: real) returns (bands: seq<Band>)
      requires rate >= 8000.0
      ensures |bands| == |requested| && forall i :: 0 <= i < |bands| ==> bands[i] == ClampBand(requested[i], rate)
    {
      bands := [];
      for i := 0 to |requested|
        invariant |bands| == i && forall k :: 0 <= k < i ==> bands[k] == ClampBand(requested[k], rate)
      {
        bands := bands + [ClampBand(requested[i], rate)];
      }
    }

    method ClampTuning(requested: Requested, rate: real) returns (t: Tuning)
      requires |requested.bands| == 3 && 8000.0 <= rate <= 192000.0
      ensures SafeTuning(t, rate) && TuningClamped(requested, t, rate)
      ensures requested.TuningInRange(rate) ==> requested.SameTuning(t, rate)
    {
      var bands := ClampBands(requested.bands, rate);
      t := Tuning(ClampOr(requested.attackMs, 10.0, 0.1, 200.0), ClampOr(requested.releaseMs, 100.0, 1.0, 2000.0),
                  ClampOr(requested.highPassHz, 80.0, 20.0, rate * 0.4), bands);
    }

    /** New controls, each clamped to its safe range, and a cleared state. Only an invalid sample rate is reported, and
        is replaced by 48 kHz. */
    method Configure(requested: Requested, rate: Sample) returns (valid: bool)
      requires |requested.eqEnabled| == |requested.bands| == 3
      modifies this
      ensures Valid() && valid == Within(rate, 8000.0, 192000.0)
      ensures sampleRate == if valid then rate.value else 48000.0
      ensures channels == [QUIET, QUIET] && metrics == AudioMetrics(0, 0)
      ensures SafeLevels(config) && SafeTuning(tuning, sampleRate) && Derived(maths, config, tuning, sampleRate)
      ensures LevelsClamped(requested, config) && TuningClamped(requested, tuning, sampleRate)
      ensures requested.SameSwitches(config) && (requested.LevelsInRange() ==> requested.SameLevels(config))
      ensures requested.TuningInRange(sampleRate) ==> requested.SameTuning(tuning, sampleRate)
    {
      valid := Within(rate, 8000.0, 192000.0);
      sampleRate := if valid then rate.value else 48000.0;
      tuning := ClampTuning(requested, sampleRate);
      config := ClampConfig(maths, requested, tuning, sampleRate);
      channels, metrics := [QUIET, QUIET], AudioMetrics(0, 0);
    }

    /** One sample through the chain, before the limiter. */
    method Chain(channel: nat, s: Sample) returns (value: real)
      requires Valid() && channel < 2
      modifies this`channels
      ensures Valid()
      ensures var r := BeforeLimiter(maths, config, old(channels[channel]), s);
              value == r.0 && channels == old(channels)[channel := r.1]
    {
      var ch := channels[channel];
      value := Sanitize(s);
      value := Amplify(value, maths.dbToLinear(config.inputGainDb));
      if config.noiseGateEnabled && Abs(value) < maths.dbToLinear(config.gateThresholdDb) {
        value := 0.0;
      }
      assert value == Gated(maths, config, s);
      if config.highPassEnabled {
        var r := Tick(config.highPass, ch.highPass, value);
        value, ch := r.0, ch.(highPass := r.1);
      }
      assert (value, ch.highPass) == HighPassed(config, channels[channel].highPass, Gated(maths, config, s));
      ghost var x, highPass, delays := value, ch.highPass, ch.eq;
      for band := 0 to 3
        invariant ch == channels[channel].(highPass := highPass, eq := ch.eq) && |ch.eq| == 3
        invariant (value, ch.eq) == Equalize(config, delays, x, band)
      {
        if config.eqEnabled[band] {
          var r := Tick(config.eq[band], ch.eq[band], value);
          value, ch := r.0, ch.(eq := ch.eq[band := r.1]);
        }
      }
      if config.compressorEnabled {
        ch := ch.(envelope := Follow(config, ch.envelope, Abs(value)));
        value := Compress(maths, config, ch.envelope, value);
      }
      channels := channels[channel := ch];
    }

    /** One sample of the buffer through the chain and the limiter, written back in place. */
    method ProcessSample(samples: array<Sample>, index: nat, channel: nat) returns (limited: nat)
      requires Valid() && index < samples.Length && channel < 2
      modifies this`channels, samples
      ensures Valid()
      ensures var r := BeforeLimiter(maths, config, old(channels[channel]), old(samples[index]));
              && channels == old(channels)[channel := r.1]
              && limited == (if Exceeds(maths, config, r.0) then 1 else 0)
              && samples[..] == old(samples[..])[index := Finite(Limit(maths, config, r.0))]
    {
      limited := 0;
      ghost var all := samples[..];
      var value := Chain(channel, samples[index]);
      var ceiling := maths.dbToLinear(config.limiterCeilingDb);
      if config.limiterEnabled && Abs(value) > ceiling {
        limited := 1;
        value := if value < -ceiling then -ceiling else ceiling;
      }
      samples[index] := Finite(value);
      assert samples[..] == all[index := Finite(value)];
    }

    method ProcessNext(samples: array<Sample>, index: nat, channel: nat, clipped: nat,
                       ghost start: seq<Channel>, ghost all: seq<Sample>, ghost next: nat) returns (total: nat)
      requires Valid() && ValidChannels(start) && index < |all| == samples.Length && channel == index % 2
      requires next == index + 1
      requires Progress(maths, config, start, all, index, samples[..], channels, clipped)
      modifies this`channels, samples
      ensures Valid() && Progress(maths, config, start, all, next, samples[..], channels, total)
    {
      ProgressStep(maths, config, start, all, index, samples[..], channels, clipped);
      var limited := ProcessSample(samples, index, channel);
      total := clipped + limited;
    }

    /** Both channels of one frame, left then right; left and done are its bounds in the buffer. */
    method ProcessFrame(samples: array<Sample>, left: nat, clipped: nat, ghost start: seq<Channel>, ghost all: seq<Sample>,
                        ghost done: nat)
      returns (total: nat)
      requires Valid() && ValidChannels(start) && left % 2 == 0 && done == left + 2 <= |all| == samples.Length
      requires Progress(maths, config, start, all, left, samples[..], channels, clipped)
      modifies this`channels, samples
      ensures Valid() && Progress(maths, config, start, all, done, samples[..], channels, total)
    {
      var right := left + 1;
      assert right % 2 == 1;
      var limited := ProcessNext(samples, left, 0, clipped, start, all, right);
      total := ProcessNext(samples, right, 1, limited, start, all, done);
    }

    /** In place over frameCount stereo frames; returns how many samples the limiter constrained. */
    method Process(samples: array<Sample>, frameCount: nat) returns (clipped: nat)
      requires Valid() && 2 * frameCount <= samples.Length
      modifies this, samples
      ensures Valid() && config == old(config)
      ensures var r := Run(maths, config, old(channels), old(samples[..])[..2 * frameCount]);
              && channels == r.channels && clipped == r.limited
              && samples[..] == Written(old(samples[..]), r.outputs)
      ensures metrics == AudioMetrics(old(metrics).clippedSamples + clipped, old(metrics).processedFrames + frameCount)
    {
      clipped := 0;
      if frameCount == 0 {
        return;
      }
      clipped := ProcessFrames(samples, frameCount, channels, samples[..]);
      metrics := AudioMetrics(metrics.clippedSamples + clipped, metrics.processedFrames + frameCount);
    }

    /** The frame loop. */
    method ProcessFrames(samples: array<Sample>, frameCount: nat, ghost start: seq<Channel>, ghost all: seq<Sample>)
      returns (clipped: nat)
      requires Valid() && 2 * frameCount <= samples.Length && start == channels && all == samples[..]
      modifies this`channels, samples
      ensures Valid() && Progress(maths, config, start, all, 2 * frameCount, samples[..], channels, clipped)
    {
      clipped := 0;
      for frame := 0 to frameCount
        invariant Valid() && Progress(maths, config, start, all, 2 * frame, samples[..], channels, clipped)
      {
        clipped := ProcessFrame(samples, 2 * frame, clipped, start, all, 2 * (frame + 1));
      }
    }
  }

  /** A buffer whose first cells hold outputs. */
  ghost function Written(all: seq<Sample>, outputs: seq<real>): (r: seq<Sample>)
    requires |outputs| <= |all|
    ensures |r| == |all|
    ensures forall i :: 0 <= i < |outputs| ==> r[i] == Finite(outputs[i])
    ensures forall i :: |outputs| <= i < |all| ==> r[i] == all[i]
  {
    seq(|outputs|, i requires 0 <= i < |outputs| => Finite(outputs[i])) + all[|outputs|..]
  }

  /** The state of `Process` when n samples are done. */
  ghost predicate Progress(m: Maths, c: Config, start: seq<Channel>, all: seq<Sample>, n: nat, now: seq<Sample>,
                           channels: seq<Channel>, clipped: nat)
    requires ValidConfig(c) && ValidChannels(start)
  {
    && n <= |all|
    && var r := Run(m, c, start, all[..n]);
    && now == Written(all, r.outputs) && channels == r.channels && clipped == r.limited
  }

  lemma {:induction false} ProgressStep(m: Maths, c: Config, start: seq<Channel>, all: seq<Sample>, n: nat,
                                        now: seq<Sample>, channels: seq<Channel>, clipped: nat)
    requires ValidConfig(c) && ValidChannels(start) && n < |all|
    requires Progress(m, c, start, all, n, now, channels, clipped)
    ensures now[n] == all[n] && ValidChannels(channels)
    ensures var r := BeforeLimiter(m, c, channels[n % 2], now[n]);
            Progress(m, c, start, all, n + 1, now[n := Finite(Limit(m, c, r.0))], channels[n % 2 := r.1],
                     clipped + if Exceeds(m, c, r.0) then 1 else 0)
  {
    RunNext(m, c, start, all, n);
    var before := Run(m, c, start, all[..n]);
    var r := Advance(m, c, before, n % 2, all[n]);
    var x := BeforeLimiter(m, c, channels[n % 2], now[n]).0;
    assert now[n := Finite(Limit(m, c, x))] == Written(all, r.outputs);
  }

  lemma {:induction false} RunNext(m: Maths, c: Config, channels: seq<Channel>, samples: seq<Sample>, i: nat)
    requires ValidConfig(c) && ValidChannels(channels) && i < |samples|
    ensures Run(m, c, channels, samples[..i + 1])
         == Advance(m, c, Run(m, c, channels, samples[..i]), i % 2, samples[i])
  {
    assert samples[..i + 1][..i] == samples[..i];
  }
}
