/** The device callback: it hands the engine blocks of at most 2048 frames. */
module AudioCallback {
  import opened Signals
  import opened EngineTuning
  import opened AudioEngine

  /** The callback's view of the input: a missing buffer reads as silence. */
  function Input(input: seq<Sample>, present: bool, frameCount: nat): (s: seq<Sample>)
    requires present ==> |input| == 2 * frameCount
    ensures |s| == 2 * frameCount
  {
    if present then input else seq(2 * frameCount, _ => Finite(0.0))
  }

  function Cleaned(s: seq<Sample>): (r: seq<Sample>)
    ensures |r| == |s| && forall i :: 0 <= i < |s| ==> r[i] == Finite(Sanitize(s[i]))
  {
    seq(|s|, i requires 0 <= i < |s| => Finite(Sanitize(s[i])))
  }

  lemma {:induction false} AdvanceOfCleaned(m: Maths, c: Config, before: Outcome, channel: nat, s: Sample, clean: Sample)
    requires ValidConfig(c) && ValidChannels(before.channels) && channel < 2 && clean == Finite(Sanitize(s))
    ensures Advance(m, c, before, channel, clean) == Advance(m, c, before, channel, s)
  {
    assert Gated(m, c, clean) == Gated(m, c, s);
  }

  /** Sanitizing twice changes nothing. */
  lemma {:induction false} RunOfCleaned(m: Maths, c: Config, channels: seq<Channel>, s: seq<Sample>)
    requires ValidConfig(c) && ValidChannels(channels)
    ensures Run(m, c, channels, Cleaned(s)) == Run(m, c, channels, s)
    decreases |s|
  {
    if s != [] {
      var n := |s| - 1;
      assert Cleaned(s)[..n] == Cleaned(s[..n]);
      RunOfCleaned(m, c, channels, s[..n]);
      AdvanceOfCleaned(m, c, Run(m, c, channels, s[..n]), n % 2, s[n], Cleaned(s)[n]);
    }
  }

  method Fill(scratch: array<Sample>, block: seq<Sample>)
    requires |block| <= scratch.Length
    modifies scratch
    ensures scratch[..][..|block|] == Cleaned(block)
  {
    for i := 0 to |block|
      invariant scratch[..][..i] == Cleaned(block)[..i]
    {
      scratch[i] := Finite(Sanitize(block[i]));
      assert scratch[..][..i + 1] == scratch[..][..i] + [scratch[i]];
      assert Cleaned(block)[..i + 1] == Cleaned(block)[..i] + [Cleaned(block)[i]];
    }
  }

  method ReadBack(scratch: array<Sample>, n: nat) returns (values: seq<real>)
    requires n <= scratch.Length
    ensures |values| == n && forall i :: 0 <= i < n ==> values[i] == Sanitize(scratch[i])
  {
    values := [];
    for i := 0 to n
      invariant |values| == i && forall k :: 0 <= k < i ==> values[k] == Sanitize(scratch[k])
    {
      values := values + [Sanitize(scratch[i])];
    }
  }

  class Host {
    const engine: Engine
    const monitorOutput: bool
    var processedFrames: nat
    var limitedSamples: nat
    /** Samples handed to the spectrum queue, in order. */
    var spectrumSamples: seq<real>
    /** The engine's state when the session began, and every input sample since. */
    ghost var start: seq<Channel>
    ghost var heard: seq<Sample>

    /** Over the whole session the callbacks did what one call of the engine does. */
    ghost predicate Valid()
      reads this, engine
    {
      && engine.Valid() && ValidChannels(start) && |heard| == 2 * processedFrames
      && Run(engine.maths, engine.config, start, heard) == Outcome(spectrumSamples, engine.channels, limitedSamples)
    }

    constructor (engine: Engine, monitorOutput: bool)
      requires engine.Valid()
      ensures Valid() && this.engine == engine && this.monitorOutput == monitorOutput && heard == []
      ensures processedFrames == 0 && limitedSamples == 0 && spectrumSamples == []
    {
      this.engine, this.monitorOutput := engine, monitorOutput;
      processedFrames, limitedSamples, spectrumSamples := 0, 0, [];
      start, heard := engine.channels, [];
    }

    /** One block: clean it into the scratch buffer, process it there and read it back. */
    method Block(block: seq<Sample>) returns (values: seq<real>, limited: nat)
      requires engine.Valid() && |block| % 2 == 0 && |block| <= 4096
      modifies engine
      ensures engine.Valid() && engine.config == old(engine.config)
      ensures Outcome(values, engine.channels, limited)
           == Run(engine.maths, engine.config, old(engine.channels), block)
    {
      var scratch := new Sample[4096](_ => NotFinite);
      RunOfCleaned(engine.maths, engine.config, engine.channels, block);
      Fill(scratch, block);
      limited := engine.Process(scratch, |block| / 2);
      values := ReadBack(scratch, |block|);
    }

    /** The block of samples n up to end, after the ones before it. */
    method NextPart(samples: seq<Sample>, n: nat, end: nat, ghost c: Config, ghost begun: seq<Channel>, ghost o: Outcome)
      returns (values: seq<real>, limited: nat)
      requires engine.Valid() && engine.config == c && ValidChannels(begun)
      requires n % 2 == 0 && end % 2 == 0 && n <= end <= |samples| && end <= n + 4096
      requires SoFar(engine.maths, c, begun, samples, n, o) && o.channels == engine.channels
      modifies engine
      ensures engine.Valid() && engine.config == c
      ensures SoFar(engine.maths, c, begun, samples, end,
                    Outcome(o.outputs + values, engine.channels, o.limited + limited))
    {
      NextBlock(engine.maths, c, begun, samples, n, end, o);
      values, limited := Block(samples[n..end]);
    }

    /** The block loop: it equals one call of the engine on the whole buffer, so the split is invisible. */
    method Blocks(samples: seq<Sample>, frameCount: nat) returns (values: seq<real>, limited: nat)
      requires engine.Valid() && |samples| == 2 * frameCount
      modifies engine
      ensures engine.Valid() && engine.config == old(engine.config)
      ensures Outcome(values, engine.channels, limited)
           == Run(engine.maths, engine.config, old(engine.channels), samples)
    {
      ghost var begun, c := engine.channels, engine.config;
      var offset := 0;
      values, limited := [], 0;
      while offset < frameCount
        invariant 0 <= offset <= frameCount && engine.Valid() && engine.config == c
        invariant SoFar(engine.maths, c, begun, samples, 2 * offset, Outcome(values, engine.channels, limited))
      {
        var blockFrames := if frameCount - offset < 2048 then frameCount - offset else 2048;
        var out, more := NextPart(samples, 2 * offset, 2 * (offset + blockFrames), c, begun,
                                  Outcome(values, engine.channels, limited));
        values, limited := values + out, limited + more;
        offset := offset + blockFrames;
      }
      assert samples[..2 * frameCount] == samples;
    }

    /** One callback: the session stays what one call on all its input would give. */
    method Callback(input: seq<Sample>, present: bool, frameCount: nat) returns (output: seq<real>)
      requires Valid() && (present ==> |input| == 2 * frameCount)
      modifies this, engine
      ensures Valid() && engine.config == old(engine.config) && start == old(start)
      ensures heard == old(heard) + Input(input, present, frameCount)
      ensures var r := Run(engine.maths, engine.config, old(engine.channels), Input(input, present, frameCount));
              && spectrumSamples == old(spectrumSamples) + r.outputs
              && output == (if monitorOutput then r.outputs else seq(2 * frameCount, _ => 0.0))
    {
      var samples := Input(input, present, frameCount);
      RunSplits(engine.maths, engine.config, start, heard, samples);
      var values, limited := Blocks(samples, frameCount);
      limitedSamples := limitedSamples + limited;
      spectrumSamples := spectrumSamples + values;
      processedFrames := processedFrames + frameCount;
      heard := heard + samples;
      output := if monitorOutput then values else seq(2 * frameCount, _ => 0.0);
    }
  }

  /** The blocks up to position n together make the outcome of one call on that prefix. */
  ghost predicate SoFar(m: Maths, c: Config, start: seq<Channel>, samples: seq<Sample>, n: nat, o: Outcome)
    requires ValidConfig(c) && ValidChannels(start)
  {
    n <= |samples| && o == Run(m, c, start, samples[..n])
  }

  lemma {:induction false} NextBlock(m: Maths, c: Config, start: seq<Channel>, samples: seq<Sample>, n: nat, end: nat,
                                     o: Outcome)
    requires ValidConfig(c) && ValidChannels(start) && n % 2 == 0 && n <= end <= |samples|
    requires SoFar(m, c, start, samples, n, o)
    ensures ValidChannels(o.channels)
    ensures var r := Run(m, c, o.channels, samples[n..end]);
            SoFar(m, c, start, samples, end, Outcome(o.outputs + r.outputs, r.channels, o.limited + r.limited))
  {
    RunSplits(m, c, start, samples[..n], samples[n..end]);
    assert samples[..n] + samples[n..end] == samples[..end];
  }
}
