/** What the DSP engine does to whole signals: on each channel gain and gate, the high-pass, the three equalizer bands in
    order, and a gain that follows the envelope by the compressor's static curve; then the limiter. */
module EngineCascade {
  import opened Arithmetic
  import opened Signals
  import opened Filters
  import opened EngineTuning
  import opened Compressor
  import opened AudioEngine

  /** The signals of one channel, stage by stage. */
  datatype Stages = Stages(input: seq<real>, highPassed: seq<real>, band0: seq<real>, band1: seq<real>, band2: seq<real>,
                           envelope: seq<real>, output: seq<real>)

  /** The sanitized sample times the input gain, or silence where the gate is on and that is below its threshold. */
  ghost predicate GatedInput(m: Maths, c: Config, s: seq<Sample>, x: seq<real>) {
    && |x| == |s|
    && forall i :: 0 <= i < |s| ==>
         var g := Product(Sanitize(s[i]), m.dbToLinear(c.inputGainDb));
         x[i] == if c.noiseGateEnabled && Abs(g) < m.dbToLinear(c.gateThresholdDb) then 0.0 else g
  }

  /** The envelope before the n-th sample. */
  function Before(env: seq<real>, start: real, n: int): real
    requires 0 <= n <= |env|
  {
    if n == 0 then start else env[n - 1]
  }

  /** The envelope moves towards the magnitude, by the attack coefficient exactly while the magnitude exceeds it. */
  ghost predicate FollowsAt(c: Config, start: real, v: seq<real>, env: seq<real>, n: int)
    requires 0 <= n < |v| == |env|
  {
    var magnitude, before := Abs(v[n]), Before(env, start, n);
    var k := if magnitude > before then c.attack else c.release;
    env[n] == k * before + (1.0 - k) * magnitude
  }

  ghost predicate Follows(c: Config, start: real, v: seq<real>, env: seq<real>) {
    |env| == |v| && forall n :: 0 <= n < |v| ==> FollowsAt(c, start, v, env, n)
  }

  /** The level of an envelope in dB. */
  function Level(m: Maths, envelope: real): real {
    if envelope > 0.0 then 20.0 * m.log10(envelope) else -120.0
  }

  /** The gain, in dB, that takes the level of an envelope to the one the static curve leaves. */
  function GainDb(m: Maths, c: Config, envelope: real): real
    requires ValidConfig(c)
  {
    var over := Level(m, envelope) - c.compressorThresholdDb;
    LevelLeft(over, c.compressorKneeDb, c.compressorRatio) - over
  }

  ghost predicate Compressed(m: Maths, c: Config, v: seq<real>, env: seq<real>, u: seq<real>)
    requires ValidConfig(c)
  {
    |u| == |v| == |env| && forall n :: 0 <= n < |v| ==> u[n] == Product(v[n], m.dbToLinear(GainDb(m, c, env[n])))
  }

  /** The stages of a channel that starts from rest. */
  ghost predicate CascadeOf(m: Maths, c: Config, s: seq<Sample>, g: Stages)
    requires ValidConfig(c)
  {
    && GatedInput(m, c, s, g.input)
    && Filtered(c.highPassEnabled, c.highPass, g.input, g.highPassed)
    && Filtered(c.eqEnabled[0], c.eq[0], g.highPassed, g.band0)
    && Filtered(c.eqEnabled[1], c.eq[1], g.band0, g.band1)
    && Filtered(c.eqEnabled[2], c.eq[2], g.band1, g.band2)
    && Follows(c, 0.0, g.band2, g.envelope)
    && if c.compressorEnabled then Compressed(m, c, g.band2, g.envelope, g.output) else g.output == g.band2
  }

  /** The decibel scale: positive amplitudes, one at 0 dB, and more for more. */
  ghost predicate Decibels(m: Maths) {
    && m.dbToLinear(0.0) == 1.0
    && (forall a, b :: a < b ==> m.dbToLinear(a) < m.dbToLinear(b))
    && (forall a :: m.dbToLinear(a) > 0.0)
  }

  // ----- one channel, sample by sample

  /** The channel after n of its samples, and the value before the limiter. */
  function ChannelAt(m: Maths, c: Config, ch: Channel, s: seq<Sample>, n: nat): (r: Channel)
    requires ValidConfig(c) && |ch.eq| == 3 && n <= |s|
    ensures |r.eq| == 3
  {
    if n == 0 then ch else BeforeLimiter(m, c, ChannelAt(m, c, ch, s, n - 1), s[n - 1]).1
  }

  function ValueAt(m: Maths, c: Config, ch: Channel, s: seq<Sample>, n: nat): real
    requires ValidConfig(c) && |ch.eq| == 3 && n < |s|
  {
    BeforeLimiter(m, c, ChannelAt(m, c, ch, s, n), s[n]).0
  }

  function GatedSignal(m: Maths, c: Config, s: seq<Sample>): (x: seq<real>)
    ensures |x| == |s| && forall i :: 0 <= i < |s| ==> x[i] == Gated(m, c, s[i])
  {
    seq(|s|, i requires 0 <= i < |s| => Gated(m, c, s[i]))
  }

  /** The stages of a channel up to the last band, from any delays. */
  datatype Path = Path(x: seq<real>, h: seq<real>, b0: seq<real>, b1: seq<real>, b2: seq<real>)

  function PathOf(m: Maths, c: Config, ch: Channel, s: seq<Sample>): (r: Path)
    requires ValidConfig(c) && |ch.eq| == 3
    ensures |r.x| == |r.h| == |r.b0| == |r.b1| == |r.b2| == |s|
  {
    var x := GatedSignal(m, c, s);
    var h := Passed(c.highPassEnabled, c.highPass, ch.highPass, x);
    var b0 := Passed(c.eqEnabled[0], c.eq[0], ch.eq[0], h);
    var b1 := Passed(c.eqEnabled[1], c.eq[1], ch.eq[1], b0);
    Path(x, h, b0, b1, Passed(c.eqEnabled[2], c.eq[2], ch.eq[2], b1))
  }

  /** One section for one sample. */
  function Section(on: bool, co: Coefficients, d: Delay, x: real): (real, Delay) {
    if on then Tick(co, d, x) else (x, d)
  }

  lemma {:induction false} SectionAlong(on: bool, co: Coefficients, d: Delay, x: seq<real>, n: nat)
    requires n < |x|
    ensures Section(on, co, PassedDelay(on, co, d, x, n), x[n]) == (Passed(on, co, d, x)[n], PassedDelay(on, co, d, x, n + 1))
  {
  }

  lemma {:induction false} OneBand(c: Config, d: seq<Delay>, x: real, n: nat)
    requires ValidConfig(c) && |d| == 3 && n < 3
    ensures var (v, e) := Equalize(c, d, x, n);
            var r := Section(c.eqEnabled[n], c.eq[n], e[n], v);
            Equalize(c, d, x, n + 1) == (r.0, e[n := r.1])
  {
    var e := Equalize(c, d, x, n).1;
    assert e[n := e[n]] == e;
  }

  lemma {:induction false} ThreeBands(c: Config, d: seq<Delay>, x: real)
    requires ValidConfig(c) && |d| == 3
    ensures var r0 := Section(c.eqEnabled[0], c.eq[0], d[0], x);
            var r1 := Section(c.eqEnabled[1], c.eq[1], d[1], r0.0);
            var r2 := Section(c.eqEnabled[2], c.eq[2], d[2], r1.0);
            Equalize(c, d, x, 3) == (r2.0, [r0.1, r1.1, r2.1])
  {
    var r0 := Section(c.eqEnabled[0], c.eq[0], d[0], x);
    var r1 := Section(c.eqEnabled[1], c.eq[1], d[1], r0.0);
    var r2 := Section(c.eqEnabled[2], c.eq[2], d[2], r1.0);
    OneBand(c, d, x, 0);
    OneBand(c, d, x, 1);
    OneBand(c, d, x, 2);
    assert d[0 := r0.1][1 := r1.1][2 := r2.1] == [r0.1, r1.1, r2.1];
  }

  /** The delays of the channel are those of its sections along their own inputs. */
  ghost predicate DelaysAlong(m: Maths, c: Config, ch: Channel, s: seq<Sample>, n: nat, at: Channel)
    requires ValidConfig(c) && |ch.eq| == 3 && n <= |s|
  {
    var p := PathOf(m, c, ch, s);
    && at.highPass == PassedDelay(c.highPassEnabled, c.highPass, ch.highPass, p.x, n)
    && at.eq == [PassedDelay(c.eqEnabled[0], c.eq[0], ch.eq[0], p.h, n), PassedDelay(c.eqEnabled[1], c.eq[1], ch.eq[1], p.b0, n),
                 PassedDelay(c.eqEnabled[2], c.eq[2], ch.eq[2], p.b1, n)]
  }

  /** What one sample does to a channel, with the filters taken section by section. */
  lemma {:induction false} SampleAlong(m: Maths, c: Config, ch: Channel, s: seq<Sample>, n: nat, at: Channel)
    requires ValidConfig(c) && |ch.eq| == 3 && n < |s| && DelaysAlong(m, c, ch, s, n, at)
    ensures var r, v := BeforeLimiter(m, c, at, s[n]), PathOf(m, c, ch, s).b2[n];
            && DelaysAlong(m, c, ch, s, n + 1, r.1)
            && r.1.envelope == (if c.compressorEnabled then Follow(c, at.envelope, Abs(v)) else at.envelope)
            && r.0 == if c.compressorEnabled then Compress(m, c, r.1.envelope, v) else v
  {
    var p := PathOf(m, c, ch, s);
    SectionAlong(c.highPassEnabled, c.highPass, ch.highPass, p.x, n);
    SectionAlong(c.eqEnabled[0], c.eq[0], ch.eq[0], p.h, n);
    SectionAlong(c.eqEnabled[1], c.eq[1], ch.eq[1], p.b0, n);
    SectionAlong(c.eqEnabled[2], c.eq[2], ch.eq[2], p.b1, n);
    assert HighPassed(c, at.highPass, Gated(m, c, s[n])) == Section(c.highPassEnabled, c.highPass, at.highPass, p.x[n]);
    ThreeBands(c, at.eq, p.h[n]);
  }

  lemma {:induction false} ChannelAlong(m: Maths, c: Config, ch: Channel, s: seq<Sample>, n: nat)
    requires ValidConfig(c) && |ch.eq| == 3 && n <= |s|
    ensures DelaysAlong(m, c, ch, s, n, ChannelAt(m, c, ch, s, n))
    decreases n
  {
    if n == 0 {
      assert ch.eq == [ch.eq[0], ch.eq[1], ch.eq[2]];
    } else {
      ChannelAlong(m, c, ch, s, n - 1);
      SampleAlong(m, c, ch, s, n - 1, ChannelAt(m, c, ch, s, n - 1));
    }
  }

  // ----- the compressor

  /** The envelope along a channel. */
  function EnvelopeOf(c: Config, start: real, v: seq<real>, n: nat): real
    requires n <= |v|
  {
    if n == 0 then start else Follow(c, EnvelopeOf(c, start, v, n - 1), Abs(v[n - 1]))
  }

  function Envelopes(c: Config, start: real, v: seq<real>): (env: seq<real>)
    ensures |env| == |v| && forall n :: 0 <= n < |v| ==> env[n] == EnvelopeOf(c, start, v, n + 1)
  {
    seq(|v|, n requires 0 <= n < |v| => EnvelopeOf(c, start, v, n + 1))
  }

  lemma {:induction false} EnvelopesFollow(c: Config, start: real, v: seq<real>)
    ensures Follows(c, start, v, Envelopes(c, start, v))
  {
    var env := Envelopes(c, start, v);
    forall n | 0 <= n < |v|
      ensures FollowsAt(c, start, v, env, n)
    {
      assert Before(env, start, n) == EnvelopeOf(c, start, v, n);
    }
  }

  lemma {:induction false} ChannelEnvelope(m: Maths, c: Config, ch: Channel, s: seq<Sample>, n: nat)
    requires ValidConfig(c) && |ch.eq| == 3 && n <= |s| && c.compressorEnabled
    ensures ChannelAt(m, c, ch, s, n).envelope == EnvelopeOf(c, ch.envelope, PathOf(m, c, ch, s).b2, n)
    decreases n
  {
    if n > 0 {
      ChannelEnvelope(m, c, ch, s, n - 1);
      ChannelAlong(m, c, ch, s, n - 1);
      SampleAlong(m, c, ch, s, n - 1, ChannelAt(m, c, ch, s, n - 1));
    }
  }

  /** The compressor multiplies by the gain of the static curve at the envelope. */
  lemma {:induction false} CompressIsGain(m: Maths, c: Config, envelope: real, x: real)
    requires ValidConfig(c) && m.dbToLinear(0.0) == 1.0
    ensures Compress(m, c, envelope, x) == Product(x, m.dbToLinear(GainDb(m, c, envelope))) && GainDb(m, c, envelope) <= 0.0
  {
    var over := LinearToDb(m, envelope) - c.compressorThresholdDb;
    assert LinearToDb(m, envelope) == Level(m, envelope);
    ReductionLeaves(over, c.compressorKneeDb, c.compressorRatio);
    CompressionKeepsOrder(over, over, c.compressorKneeDb, c.compressorRatio);
    assert GainDb(m, c, envelope) == -GainReduction(over, c.compressorKneeDb, c.compressorRatio);
    assert Product(x, 1.0) == x;
  }

  function Uncompressed(c: Config): Config {
    c.(compressorEnabled := false)
  }

  lemma {:induction false} SamePath(m: Maths, c: Config, ch: Channel, s: seq<Sample>)
    requires ValidConfig(c) && |ch.eq| == 3
    ensures PathOf(m, Uncompressed(c), ch, s) == PathOf(m, c, ch, s)
  {
    assert GatedSignal(m, Uncompressed(c), s) == GatedSignal(m, c, s);
  }

  /** The value before the limiter: what the last band gives, times the gain of its envelope. */
  lemma {:induction false} ValueAlong(m: Maths, c: Config, ch: Channel, s: seq<Sample>, n: nat)
    requires ValidConfig(c) && |ch.eq| == 3 && n < |s| && m.dbToLinear(0.0) == 1.0
    ensures var v := PathOf(m, c, ch, s).b2;
            ValueAt(m, c, ch, s, n) == if c.compressorEnabled
                                       then Product(v[n], m.dbToLinear(GainDb(m, c, EnvelopeOf(c, ch.envelope, v, n + 1))))
                                       else v[n]
  {
    var v := PathOf(m, c, ch, s).b2;
    ChannelAlong(m, c, ch, s, n);
    SampleAlong(m, c, ch, s, n, ChannelAt(m, c, ch, s, n));
    if c.compressorEnabled {
      ChannelEnvelope(m, c, ch, s, n);
      CompressIsGain(m, c, EnvelopeOf(c, ch.envelope, v, n + 1), v[n]);
    }
  }

  /** A gain of at most 0 dB never raises a magnitude. */
  lemma {:induction false} NoGainAboveOne(m: Maths, x: real, db: real)
    requires Decibels(m) && db <= 0.0
    ensures Abs(Product(x, m.dbToLinear(db))) <= Abs(x)
  {
    var g := m.dbToLinear(db);
    assert 0.0 < g <= 1.0;
    ProductSign(Abs(x), 1.0 - g);
    ProductSign(Abs(x), g);
    assert Abs(x) * (1.0 - g) == Abs(x) - Abs(x) * g;
    assert x >= 0.0 ==> x * g == Abs(x) * g;
    assert x < 0.0 ==> x * g == -(Abs(x) * g);
  }

  // ----- both channels

  /** The samples of one channel. */
  function Side(samples: seq<Sample>, k: nat): (s: seq<Sample>)
    requires k < 2
    ensures |s| == (|samples| + 1 - k) / 2 && forall i :: 0 <= i < |s| ==> s[i] == samples[2 * i + k]
  {
    seq((|samples| + 1 - k) / 2, i requires 0 <= i < (|samples| + 1 - k) / 2 => samples[2 * i + k])
  }

  /** After f whole frames each channel is where its own samples have taken it. */
  ghost predicate SidesAt(m: Maths, c: Config, channels: seq<Channel>, left: seq<Sample>, right: seq<Sample>,
                          f: nat, g: nat, now: seq<Channel>)
    requires ValidConfig(c) && ValidChannels(channels) && f <= |left| && g <= |right|
  {
    now == [ChannelAt(m, c, channels[0], left, f), ChannelAt(m, c, channels[1], right, g)]
  }

  lemma {:induction false} LeftOneMore(m: Maths, c: Config, channels: seq<Channel>, left: seq<Sample>, right: seq<Sample>,
                                       f: nat, before: Outcome, s: Sample)
    requires ValidConfig(c) && ValidChannels(channels) && ValidChannels(before.channels)
    requires f < |left| && f <= |right| && s == left[f] && SidesAt(m, c, channels, left, right, f, f, before.channels)
    ensures SidesAt(m, c, channels, left, right, f + 1, f, Advance(m, c, before, 0, s).channels)
  {
  }

  lemma {:induction false} RightOneMore(m: Maths, c: Config, channels: seq<Channel>, left: seq<Sample>, right: seq<Sample>,
                                        f: nat, before: Outcome, s: Sample)
    requires ValidConfig(c) && ValidChannels(channels) && ValidChannels(before.channels)
    requires f < |left| && f < |right| && s == right[f] && SidesAt(m, c, channels, left, right, f + 1, f, before.channels)
    ensures SidesAt(m, c, channels, left, right, f + 1, f + 1, Advance(m, c, before, 1, s).channels)
  {
  }

  lemma {:induction false} SidesOfFrames(m: Maths, c: Config, channels: seq<Channel>, samples: seq<Sample>,
                                         left: seq<Sample>, right: seq<Sample>, f: nat, n: nat)
    requires ValidConfig(c) && ValidChannels(channels) && n == 2 * f <= |samples|
    requires left == Side(samples, 0) && right == Side(samples, 1)
    ensures SidesAt(m, c, channels, left, right, f, f, Run(m, c, channels, samples[..n]).channels)
    decreases f
  {
    if f > 0 {
      var e, i, j := f - 1, n - 2, n - 1;
      SidesOfFrames(m, c, channels, samples, left, right, e, i);
      SidesOfLeft(m, c, channels, samples, left, right, e, f, i, j);
      SidesOfRight(m, c, channels, samples, left, right, e, f, j, n);
    }
  }

  lemma {:induction false} SidesOfLeft(m: Maths, c: Config, channels: seq<Channel>, samples: seq<Sample>,
                                       left: seq<Sample>, right: seq<Sample>, e: nat, f: nat, i: nat, j: nat)
    requires ValidConfig(c) && ValidChannels(channels) && i == 2 * e < |samples| && f == e + 1 && j == i + 1
    requires left == Side(samples, 0) && right == Side(samples, 1)
    requires SidesAt(m, c, channels, left, right, e, e, Run(m, c, channels, samples[..i]).channels)
    ensures f <= |left| && e <= |right| && SidesAt(m, c, channels, left, right, f, e, Run(m, c, channels, samples[..j]).channels)
  {
    RunNext(m, c, channels, samples, i);
    assert i % 2 == 0 && left[e] == samples[i];
    LeftOneMore(m, c, channels, left, right, e, Run(m, c, channels, samples[..i]), samples[i]);
  }

  lemma {:induction false} SidesOfRight(m: Maths, c: Config, channels: seq<Channel>, samples: seq<Sample>,
                                        left: seq<Sample>, right: seq<Sample>, e: nat, f: nat, j: nat, n: nat)
    requires ValidConfig(c) && ValidChannels(channels) && j == 2 * e + 1 < |samples| && f == e + 1 && n == j + 1
    requires left == Side(samples, 0) && right == Side(samples, 1)
    requires SidesAt(m, c, channels, left, right, f, e, Run(m, c, channels, samples[..j]).channels)
    ensures f <= |left| && f <= |right| && SidesAt(m, c, channels, left, right, f, f, Run(m, c, channels, samples[..n]).channels)
  {
    RunNext(m, c, channels, samples, j);
    assert j % 2 == 1 && right[e] == samples[j];
    RightOneMore(m, c, channels, left, right, e, Run(m, c, channels, samples[..j]), samples[j]);
  }

  lemma {:induction false} ChannelOfSide(m: Maths, c: Config, channels: seq<Channel>, samples: seq<Sample>,
                                         left: seq<Sample>, right: seq<Sample>, k: nat, i: nat, n: nat)
    requires ValidConfig(c) && ValidChannels(channels) && k < 2 && n == 2 * i + k < |samples|
    requires left == Side(samples, 0) && right == Side(samples, 1)
    ensures var s := if k == 0 then left else right;
            i < |s| && Run(m, c, channels, samples[..n]).channels[k] == ChannelAt(m, c, channels[k], s, i)
  {
    SidesOfFrames(m, c, channels, samples, left, right, i, 2 * i);
    if k == 1 {
      SidesOfLeft(m, c, channels, samples, left, right, i, i + 1, 2 * i, n);
    }
  }

  /** What reaches the limiter at a position is the value of its own channel. */
  lemma {:induction false} UnlimitedIsOfSide(m: Maths, c: Config, channels: seq<Channel>, samples: seq<Sample>,
                                             s: seq<Sample>, k: nat, i: nat, n: nat)
    requires ValidConfig(c) && ValidChannels(channels) && k < 2 && n == 2 * i + k < |samples| && s == Side(samples, k)
    ensures i < |s| && Unlimited(m, c, channels, samples)[n] == ValueAt(m, c, channels[k], s, i)
  {
    ChannelOfSide(m, c, channels, samples, Side(samples, 0), Side(samples, 1), k, i, n);
    assert n % 2 == k && s[i] == samples[n];
    assert Unlimited(m, c, channels, samples)[n] == UnlimitedAt(m, c, channels, samples, n);
  }

  /** One channel: the compressor applies the gain of the static curve at the envelope of what it gets. */
  lemma {:induction false} ValueIsGain(m: Maths, c: Config, ch: Channel, s: seq<Sample>, v: seq<real>, env: seq<real>, i: nat)
    requires ValidConfig(c) && |ch.eq| == 3 && c.compressorEnabled && Decibels(m) && i < |s|
    requires v == PathOf(m, c, ch, s).b2 && env == Envelopes(c, ch.envelope, v)
    ensures ValueAt(m, Uncompressed(c), ch, s, i) == v[i]
    ensures ValueAt(m, c, ch, s, i) == Product(v[i], m.dbToLinear(GainDb(m, c, env[i])))
    ensures Abs(ValueAt(m, c, ch, s, i)) <= Abs(v[i])
  {
    SamePath(m, c, ch, s);
    ValueAlong(m, Uncompressed(c), ch, s, i);
    ValueAlong(m, c, ch, s, i);
    CompressIsGain(m, c, env[i], v[i]);
    NoGainAboveOne(m, v[i], GainDb(m, c, env[i]));
  }

  /** From any state, on every stream and either channel: with the compressor on, what reaches the limiter is what
      reaches it with the compressor off, times the gain of the static curve at the envelope of that; so no magnitude is
      ever raised. */
  lemma {:induction false} CompressorIsGain(m: Maths, c: Config, channels: seq<Channel>, samples: seq<Sample>, k: nat)
    returns (v: seq<real>, env: seq<real>)
    requires ValidConfig(c) && ValidChannels(channels) && c.compressorEnabled && Decibels(m) && k < 2
    ensures |v| == (|samples| + 1 - k) / 2 && Follows(c, channels[k].envelope, v, env)
    ensures var on, off := Unlimited(m, c, channels, samples), Unlimited(m, Uncompressed(c), channels, samples);
            forall i :: 0 <= i < |v| ==>
              && off[2 * i + k] == v[i]
              && on[2 * i + k] == Product(v[i], m.dbToLinear(GainDb(m, c, env[i])))
              && Abs(on[2 * i + k]) <= Abs(v[i])
  {
    var ch, s := channels[k], Side(samples, k);
    v := PathOf(m, c, ch, s).b2;
    env := Envelopes(c, ch.envelope, v);
    EnvelopesFollow(c, ch.envelope, v);
    var on, off := Unlimited(m, c, channels, samples), Unlimited(m, Uncompressed(c), channels, samples);
    forall i | 0 <= i < |v|
      ensures off[2 * i + k] == v[i]
      ensures on[2 * i + k] == Product(v[i], m.dbToLinear(GainDb(m, c, env[i])))
      ensures Abs(on[2 * i + k]) <= Abs(v[i])
    {
      UnlimitedIsOfSide(m, Uncompressed(c), channels, samples, s, k, i, 2 * i + k);
      UnlimitedIsOfSide(m, c, channels, samples, s, k, i, 2 * i + k);
      ValueIsGain(m, c, ch, s, v, env, i);
    }
  }

  // ----- the whole engine, from rest

  function StagesOf(m: Maths, c: Config, s: seq<Sample>): (g: Stages)
    requires ValidConfig(c)
    ensures |g.output| == |s|
  {
    var p := PathOf(m, c, QUIET, s);
    Stages(p.x, p.h, p.b0, p.b1, p.b2, Envelopes(c, 0.0, p.b2),
           seq(|s|, n requires 0 <= n < |s| => ValueAt(m, c, QUIET, s, n)))
  }

  lemma {:induction false} OutputAlong(m: Maths, c: Config, s: seq<Sample>, g: Stages)
    requires ValidConfig(c) && m.dbToLinear(0.0) == 1.0 && g == StagesOf(m, c, s)
    ensures if c.compressorEnabled then Compressed(m, c, g.band2, g.envelope, g.output) else g.output == g.band2
  {
    forall n | 0 <= n < |s|
      ensures g.output[n] == if c.compressorEnabled then Product(g.band2[n], m.dbToLinear(GainDb(m, c, g.envelope[n])))
                             else g.band2[n]
    {
      ValueAlong(m, c, QUIET, s, n);
    }
  }

  lemma {:induction false} InputIsGated(m: Maths, c: Config, s: seq<Sample>)
    ensures GatedInput(m, c, s, GatedSignal(m, c, s))
  {
  }

  /** One channel of the engine is the cascade. */
  lemma {:induction false} ChannelIsCascade(m: Maths, c: Config, s: seq<Sample>)
    requires ValidConfig(c) && m.dbToLinear(0.0) == 1.0
    ensures CascadeOf(m, c, s, StagesOf(m, c, s))
  {
    var g := StagesOf(m, c, s);
    InputIsGated(m, c, s);
    PassedIsFiltered(c.highPassEnabled, c.highPass, g.input);
    PassedIsFiltered(c.eqEnabled[0], c.eq[0], g.highPassed);
    PassedIsFiltered(c.eqEnabled[1], c.eq[1], g.band0);
    PassedIsFiltered(c.eqEnabled[2], c.eq[2], g.band1);
    EnvelopesFollow(c, 0.0, g.band2);
    OutputAlong(m, c, s, g);
  }

  /** The limiter on one value: nothing when it is off, and the nearest point of the range within the ceiling when on. */
  function Ceiled(m: Maths, c: Config, x: real): real {
    var ceiling := m.dbToLinear(c.limiterCeilingDb);
    if !c.limiterEnabled then x else if x > ceiling then ceiling else if x < -ceiling then -ceiling else x
  }

  lemma {:induction false} SideIsCascade(m: Maths, c: Config, samples: seq<Sample>, s: seq<Sample>, g: Stages, k: nat, i: nat)
    requires ValidConfig(c) && Decibels(m) && k < 2 && s == Side(samples, k) && g == StagesOf(m, c, s) && i < |s|
    ensures 2 * i + k < |samples| && Run(m, c, [QUIET, QUIET], samples).outputs[2 * i + k] == Ceiled(m, c, g.output[i])
  {
    RunLimits(m, c, [QUIET, QUIET], samples);
    UnlimitedIsOfSide(m, c, [QUIET, QUIET], samples, s, k, i, 2 * i + k);
    LimitIsCeiled(m, c, g.output[i]);
  }

  lemma {:induction false} LimitIsCeiled(m: Maths, c: Config, x: real)
    requires m.dbToLinear(c.limiterCeilingDb) > 0.0
    ensures Limit(m, c, x) == Ceiled(m, c, x)
  {
  }

  /** The outputs of one channel are the signal g, limited. */
  ghost predicate Outputs(m: Maths, c: Config, outputs: seq<real>, k: nat, g: seq<real>) {
    |g| == (|outputs| + 1 - k) / 2 && forall i :: 0 <= i < |g| ==> outputs[2 * i + k] == Ceiled(m, c, g[i])
  }

  /** From rest, on every stream: the outputs are those of the two cascades, interleaved and limited. */
  lemma {:induction false} EngineIsCascade(m: Maths, c: Config, samples: seq<Sample>, k: nat) returns (g: Stages)
    requires ValidConfig(c) && Decibels(m) && k < 2
    ensures CascadeOf(m, c, Side(samples, k), g)
    ensures Outputs(m, c, Run(m, c, [QUIET, QUIET], samples).outputs, k, g.output)
  {
    var s := Side(samples, k);
    g := StagesOf(m, c, s);
    ChannelIsCascade(m, c, s);
    forall i | 0 <= i < |g.output|
      ensures Run(m, c, [QUIET, QUIET], samples).outputs[2 * i + k] == Ceiled(m, c, g.output[i])
    {
      SideIsCascade(m, c, samples, s, g, k, i);
    }
  }

  /** The specification leaves no choice. */
  lemma {:induction false} CascadeIsUnique(m: Maths, c: Config, s: seq<Sample>, g: Stages, f: Stages)
    requires ValidConfig(c) && CascadeOf(m, c, s, g) && CascadeOf(m, c, s, f)
    ensures g == f
  {
    assert g.input == f.input;
    FilteredIsUnique(c.highPassEnabled, c.highPass, g.input, g.highPassed, f.highPassed);
    FilteredIsUnique(c.eqEnabled[0], c.eq[0], g.highPassed, g.band0, f.band0);
    FilteredIsUnique(c.eqEnabled[1], c.eq[1], g.band0, g.band1, f.band1);
    FilteredIsUnique(c.eqEnabled[2], c.eq[2], g.band1, g.band2, f.band2);
    EnvelopeIsUnique(c, 0.0, g.band2, g.envelope, f.envelope, |g.band2|);
    assert g.envelope == f.envelope;
    assert g.output == f.output;
  }

  lemma {:induction false} EnvelopeIsUnique(c: Config, start: real, v: seq<real>, a: seq<real>, b: seq<real>, n: nat)
    requires Follows(c, start, v, a) && Follows(c, start, v, b) && n <= |v|
    ensures forall i :: 0 <= i < n ==> a[i] == b[i]
    decreases n
  {
    if n > 0 {
      EnvelopeIsUnique(c, start, v, a, b, n - 1);
      assert FollowsAt(c, start, v, a, n - 1) && FollowsAt(c, start, v, b, n - 1);
    }
  }
}
