/** The way of a loudness value, from the samples the device delivers to the value published: the callback's engine,
    the spectrum queue, the meter and its gating together. */
module LoudnessPath {
  import opened Signals
  import opened EngineTuning
  import opened AudioEngine
  import opened Gating
  import opened LoudnessMeter
  import AudioCallback
  import Queue = SpectrumQueue

  /** Interleaved samples as stereo frames. */
  function StereoFrames(samples: seq<real>): (frames: seq<StereoFrame>)
    ensures |frames| == |samples| / 2
    ensures forall i :: 0 <= i < |frames| ==> frames[i] == StereoFrame(Finite(samples[2 * i]), Finite(samples[2 * i + 1]))
  {
    seq(|samples| / 2, i requires 0 <= i < |samples| / 2 =>
      StereoFrame(Finite(samples[2 * i]), Finite(samples[2 * i + 1])))
  }

  lemma {:induction false} StereoFramesAppend(a: seq<real>, b: seq<real>)
    requires |a| % 2 == 0
    ensures StereoFrames(a + b) == StereoFrames(a) + StereoFrames(b)
  {
    var all, half := a + b, |a| / 2;
    forall i | 0 <= i < |all| / 2
      ensures StereoFrames(all)[i] == (StereoFrames(a) + StereoFrames(b))[i]
    {
      if i < half {
        assert all[2 * i] == a[2 * i] && all[2 * i + 1] == a[2 * i + 1];
      } else {
        assert all[2 * i] == b[2 * (i - half)] && all[2 * i + 1] == b[2 * (i - half) + 1];
      }
    }
  }

  /** A configured meter: its sections, window and hop, and the logarithm. */
  datatype Setup = Setup(weighting: Weighting, window: nat, hop: nat, log10: real -> real)

  predicate ValidSetup(k: Setup) {
    0 < k.hop <= k.window
  }

  /** The reading of a meter that has been fed these samples: the gated loudness of the closed-form blocks of their
      weighted energies. */
  function Reading(k: Setup, samples: seq<real>): LoudnessMetrics
    requires ValidSetup(k)
  {
    MetricsOf(k.log10, Blocks(Weighted(k.weighting, StereoFrames(samples)).0, k.window, k.hop))
  }

  /** The reading as a function of the samples fed. */
  function ReadingOf(k: Setup): seq<real> -> LoudnessMetrics
    requires ValidSetup(k)
  {
    samples => Reading(k, samples)
  }

  /** The values stored while a meter was fed whole frames of the queue, and the frames since the last of them. */
  ghost predicate StoredSoFar(measure: seq<real> -> LoudnessMetrics, fed: seq<real>, stored: seq<LoudnessMetrics>,
                              windows: nat)
  {
    && |fed| == 2048 * (5 * |stored| + windows) && windows < 5
    && forall n :: 0 <= n < |stored| ==> Queue.StoredFrom(measure, fed, stored[n], n)
  }

  lemma {:induction false} StoredOneMore(measure: seq<real> -> LoudnessMetrics, fed: seq<real>, stored: seq<LoudnessMetrics>,
                                         windows: nat, samples: seq<real>, more: seq<real>)
    requires StoredSoFar(measure, fed, stored, windows) && |samples| == 2048 && more == fed + samples
    ensures windows + 1 < 5 ==> StoredSoFar(measure, more, stored, windows + 1)
    ensures windows + 1 >= 5 ==> StoredSoFar(measure, more, stored + [measure(more)], 0)
  {
    var all := stored + [measure(more)];
    forall n | 0 <= n < |stored|
      ensures Queue.StoredFrom(measure, more, stored[n], n)
    {
      assert Queue.StoredFrom(measure, fed, stored[n], n);
      assert more[..10240 * (n + 1)] == fed[..10240 * (n + 1)];
    }
    if windows + 1 >= 5 {
      var n := |stored|;
      assert more[..10240 * (n + 1)] == more;
      assert Queue.StoredFrom(measure, more, all[n], n);
      assert forall k :: 0 <= k < n ==> all[k] == stored[k];
    }
  }

  /** What was fed determines what was stored. */
  lemma {:induction false} StoredIsDetermined(measure: seq<real> -> LoudnessMetrics, fed: seq<real>,
                                              a: seq<LoudnessMetrics>, m: nat, b: seq<LoudnessMetrics>, n: nat)
    requires StoredSoFar(measure, fed, a, m) && StoredSoFar(measure, fed, b, n)
    ensures a == b && m == n
  {
    assert |a| == |b|;
    forall i | 0 <= i < |a|
      ensures a[i] == b[i]
    {
      assert Queue.StoredFrom(measure, fed, a[i], i) && Queue.StoredFrom(measure, fed, b[i], i);
    }
  }

  /** The metering part of the analysis worker. */
  class MeteringWorker {
    const meter: LoudnessMeter
    const log10: real -> real
    var windowsSinceRead: nat
    var stored: seq<LoudnessMetrics>
    /** Every sample fed to the meter. */
    ghost var fed: seq<real>

    ghost function Configured(): Setup
      reads this, meter
    {
      Setup(meter.weighting, meter.windowFrames, meter.hopFrames, log10)
    }

    ghost predicate Valid()
      reads this, meter, meter.energyRing
    {
      && meter.Valid() && Increasing(log10) && meter.fed == StereoFrames(fed)
      && StoredSoFar(ReadingOf(Configured()), fed, stored, windowsSinceRead)
    }

    constructor (meter: LoudnessMeter, log10: real -> real)
      requires meter.Valid() && meter.fed == [] && Increasing(log10)
      ensures Valid() && fed == [] && stored == [] && windowsSinceRead == 0 && this.meter == meter && this.log10 == log10
    {
      this.meter, this.log10, windowsSinceRead, stored, fed := meter, log10, 0, [], [];
    }

    /** What the meter says now is the reading of everything it was fed. */
    method Read() returns (levels: LoudnessMetrics)
      requires meter.Valid() && Increasing(log10) && meter.fed == StereoFrames(fed)
      ensures levels == ReadingOf(Configured())(fed)
    {
      levels := Metrics(log10, meter.blockEnergies);
      BlocksDetermined(meter.blockEnergies, meter.framesSinceBlock, Weighted(meter.weighting, meter.fed).0,
                       meter.windowFrames, meter.hopFrames);
    }

    method Feed(samples: seq<real>)
      requires meter.Valid() && |fed| % 2 == 0 && meter.fed == StereoFrames(fed)
      modifies this`fed, meter, meter.energyRing
      ensures meter.Valid() && Configured() == old(Configured())
      ensures fed == old(fed) + samples && meter.fed == StereoFrames(fed)
    {
      StereoFramesAppend(fed, samples);
      meter.Process(StereoFrames(samples));
      fed := fed + samples;
    }

    /** Count a frame, and store the reading if it is the fifth. */
    method CountWindow()
      requires meter.Valid() && Increasing(log10) && meter.fed == StereoFrames(fed)
      modifies this`windowsSinceRead, this`stored
      ensures var due := old(windowsSinceRead) + 1 >= 5;
              && windowsSinceRead == (if due then 0 else old(windowsSinceRead) + 1)
              && stored == if due then old(stored) + [ReadingOf(Configured())(fed)] else old(stored)
    {
      windowsSinceRead := windowsSinceRead + 1;
      if windowsSinceRead >= 5 {
        windowsSinceRead := 0;
        var levels := Read();
        stored := stored + [levels];
      }
    }

    /** One frame of the queue: the meter takes it, and every fifth time its reading is stored. */
    method Take(samples: seq<real>)
      requires Valid() && |samples| == 2048
      modifies this`windowsSinceRead, this`stored, this`fed, meter, meter.energyRing
      ensures Valid() && Configured() == old(Configured()) && fed == old(fed) + samples
      ensures var due := old(windowsSinceRead) + 1 >= 5;
              && windowsSinceRead == (if due then 0 else old(windowsSinceRead) + 1)
              && stored == if due then old(stored) + [ReadingOf(Configured())(fed)] else old(stored)
    {
      StoredOneMore(ReadingOf(Configured()), fed, stored, windowsSinceRead, samples, fed + samples);
      Feed(samples);
      CountWindow();
    }
  }

  /** A session whose meter has this setup. */
  ghost predicate SessionOf(k: Setup, run: seq<Queue.State>, steps: seq<Queue.Step>)
    requires ValidSetup(k)
  {
    Queue.IsRun(run, steps) && run[0].measure == ReadingOf(k)
  }

  /** A worker that has been fed what the meter of a session was fed has stored what the session has stored. */
  lemma {:induction false} WorkerStoresAsSession(w: MeteringWorker, run: seq<Queue.State>, steps: seq<Queue.Step>, i: nat)
    requires w.Valid() && SessionOf(w.Configured(), run, steps) && i < |run|
    requires !run[i].worker.Metering? && w.fed == run[i].meter
    ensures w.stored == run[i].stored && w.windowsSinceRead == run[i].windows
  {
    SessionStores(w.Configured(), run, steps, i);
    StoredIsDetermined(ReadingOf(w.Configured()), w.fed, w.stored, w.windowsSinceRead, run[i].stored, run[i].windows);
  }

  lemma {:induction false} SessionStores(k: Setup, run: seq<Queue.State>, steps: seq<Queue.Step>, i: nat)
    requires ValidSetup(k) && SessionOf(k, run, steps) && i < |run| && !run[i].worker.Metering?
    ensures StoredSoFar(ReadingOf(k), run[i].meter, run[i].stored, run[i].windows)
  {
    Queue.RunKeepsInv(run, steps, i);
    Queue.SameMeasure(run, steps, i);
  }

  /** The outputs for a prefix of the input, cut between frames, are a prefix of the outputs. */
  lemma {:induction false} OutputsOfPrefix(m: Maths, c: Config, start: seq<Channel>, heard: seq<Sample>, n: nat)
    requires ValidConfig(c) && ValidChannels(start) && n % 2 == 0 && n <= |heard|
    ensures Run(m, c, start, heard).outputs[..n] == Run(m, c, start, heard[..n]).outputs
  {
    assert heard[..n] + heard[n..] == heard;
    RunSplits(m, c, start, heard[..n], heard[n..]);
  }

  /** Whatever the meter reads, the n-th value stored is its reading of a prefix of the engine's output. */
  lemma {:induction false} StoredMeasure(m: Maths, c: Config, start: seq<Channel>, heard: seq<Sample>, outputs: seq<real>,
                                         run: seq<Queue.State>, steps: seq<Queue.Step>, i: nat, n: nat, end: nat)
    requires ValidConfig(c) && ValidChannels(start) && outputs == Run(m, c, start, heard).outputs
    requires Queue.IsRun(run, steps) && i < |run| && n < |run[i].stored| && run[i].pushed <= outputs
    requires end == 10240 * (n + 1)
    ensures end <= |heard| && run[i].stored[n] == run[0].measure(Run(m, c, start, heard[..end]).outputs)
  {
    Queue.LoudnessIsContiguous(run, steps, i);
    Queue.SameMeasure(run, steps, i);
    assert Queue.StoredFrom(run[i].measure, run[i].pushed, run[i].stored[n], n);
    assert run[i].pushed[..end] == outputs[..end];
    OutputsOfPrefix(m, c, start, heard, end);
  }

  /** In every run of a session, with every interleaving and however many frames are dropped: the n-th loudness
      published is the gated loudness of the closed-form blocks of the engine's output for the first 10240 (n + 1)
      samples that the device delivered. */
  lemma {:induction false} PublishedLoudness(host: AudioCallback.Host, k: Setup, run: seq<Queue.State>,
                                             steps: seq<Queue.Step>, i: nat, n: nat)
    requires host.Valid() && ValidSetup(k) && SessionOf(k, run, steps) && i < |run| && n < |run[i].stored|
    // what was pushed so far is what the callback handed over
    requires run[i].pushed <= host.spectrumSamples
    ensures 10240 * (n + 1) <= |host.heard|
    ensures run[i].stored[n]
         == Reading(k, Run(host.engine.maths, host.engine.config, host.start, host.heard[..10240 * (n + 1)]).outputs)
  {
    StoredMeasure(host.engine.maths, host.engine.config, host.start, host.heard, host.spectrumSamples, run, steps, i, n,
                  10240 * (n + 1));
  }
}
