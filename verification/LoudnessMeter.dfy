/** The rolling window of the loudness meter: K-weighted energies, a ring of the last window, and one
    gating block per hop. */
module LoudnessMeter {
  import opened Arithmetic
  import opened Signals

  datatype StereoFrame = StereoFrame(left: Sample, right: Sample)

  /** The two K-weighting sections. */
  datatype Weighting = Weighting(shelf: Coefficients, highPass: Coefficients)

  /** The delays of both sections for one channel. */
  datatype ChannelDelays = ChannelDelays(shelf: Delay, highPass: Delay)

  datatype Delays = Delays(left: ChannelDelays, right: ChannelDelays)

  const CLEARED: Delays := Delays(ChannelDelays(SILENT, SILENT), ChannelDelays(SILENT, SILENT))

  function WeightSample(w: Weighting, d: ChannelDelays, s: Sample): (real, ChannelDelays) {
    var (x, shelf) := Tick(w.shelf, d.shelf, Sanitize(s));
    var (y, highPass) := Tick(w.highPass, d.highPass, x);
    (y, ChannelDelays(shelf, highPass))
  }

  /** The weighted energy of one stereo frame, and the delays after it. */
  function WeightFrame(w: Weighting, d: Delays, f: StereoFrame): (r: (real, Delays))
    ensures r.0 >= 0.0
  {
    var (l, left) := WeightSample(w, d.left, f.left);
    var (r, right) := WeightSample(w, d.right, f.right);
    (Square(l) + Square(r), Delays(left, right))
  }

  /** The weighted energies of a stream from cleared delays, and the delays at its end. */
  function Weighted(w: Weighting, frames: seq<StereoFrame>): (r: (seq<real>, Delays))
    ensures |r.0| == |frames| && forall i :: 0 <= i < |frames| ==> r.0[i] >= 0.0
  {
    if frames == [] then ([], CLEARED)
    else
      var n := |frames| - 1;
      var (energies, d) := Weighted(w, frames[..n]);
      var (e, d') := WeightFrame(w, d, frames[n]);
      (energies + [e], d')
  }

  lemma {:induction false} WeightedStep(w: Weighting, frames: seq<StereoFrame>, f: StereoFrame)
    ensures var next := WeightFrame(w, Weighted(w, frames).1, f);
            Weighted(w, frames + [f]) == (Weighted(w, frames).0 + [next.0], next.1)
  {
  }

  // ----- sums over a window

  function Sum(e: seq<real>, lo: nat, hi: nat): real
    requires lo <= hi <= |e|
    decreases hi
  {
    if lo == hi then 0.0 else Sum(e, lo, hi - 1) + e[hi - 1]
  }

  lemma {:induction false} SumDropFirst(e: seq<real>, lo: nat, hi: nat)
    requires lo < hi <= |e|
    ensures Sum(e, lo, hi) == e[lo] + Sum(e, lo + 1, hi)
    decreases hi
  {
    if lo + 1 < hi {
      SumDropFirst(e, lo, hi - 1);
    }
  }

  lemma {:induction false} SumOfPrefix(e: seq<real>, x: real, lo: nat, hi: nat)
    requires lo <= hi <= |e|
    ensures Sum(e + [x], lo, hi) == Sum(e, lo, hi)
    decreases hi
  {
    if lo < hi {
      SumOfPrefix(e, x, lo, hi - 1);
    }
  }

  lemma {:induction false} SumNonNegative(e: seq<real>, lo: nat, hi: nat)
    requires lo <= hi <= |e| && forall i :: 0 <= i < |e| ==> e[i] >= 0.0
    ensures Sum(e, lo, hi) >= 0.0
    decreases hi
  {
    if lo < hi {
      SumNonNegative(e, lo, hi - 1);
    }
  }

  // ----- what the meter's fields say about the energies seen so far

  /** The ring cell that the n-th frame goes to. */
  function Wrapped(n: nat, window: nat): (r: nat)
    requires window > 0
    ensures r < window && (n < window ==> r == n)
  {
    n % window
  }

  lemma {:induction false} WrappedStep(n: nat, window: nat)
    requires window > 0
    ensures Wrapped(n + 1, window) == if Wrapped(n, window) + 1 == window then 0 else Wrapped(n, window) + 1
  {
    var q, r := n / window, n % window;
    if r + 1 == window {
      assert (q + 1) * window == q * window + window;
      RemainderUnique(n + 1, window, q + 1, 0);
    } else {
      RemainderUnique(n + 1, window, q, r + 1);
    }
  }

  lemma {:induction false} WrapAround(write: nat, window: nat)
    requires write < window
    ensures (write + 1) % window == if write + 1 == window then 0 else write + 1
  {
    if write + 1 == window {
      RemainderUnique(window, window, 1, 0);
    } else {
      RemainderUnique(write + 1, window, 0, write + 1);
    }
  }

  lemma {:induction false} RemainderUnique(n: nat, window: nat, q: int, r: nat)
    requires r < window && n == q * window + r
    ensures n % window == r
  {
    var d := n / window - q;
    assert n == (n / window) * window + n % window;
    assert d * window == (n / window) * window - q * window;
    assert d > 0 ==> (d - 1) * window >= 0;
    assert d < 0 ==> (-d - 1) * window >= 0;
  }

  /** The ring: the energies of the window that ends now, the oldest in the cell written next. */
  ghost predicate RingHolds(ring: seq<real>, write: nat, count: nat, rolling: real, e: seq<real>, window: nat) {
    && 0 < window <= |ring| && write == Wrapped(|e|, window)
    && count == (if |e| < window then |e| else window)
    && (forall p :: 0 <= p < write ==> ring[p] == e[|e| - write + p])
    && (|e| >= window ==> forall p :: write <= p < window ==> ring[p] == e[|e| - write - window + p])
    && rolling == Sum(e, |e| - count, |e|)
  }

  /** The first frame of block j: hops are added up one by one. */
  function BlockStart(j: nat, hop: nat): nat {
    if j == 0 then 0 else BlockStart(j - 1, hop) + hop
  }

  lemma {:induction false} BlockStartIsMultiple(j: nat, hop: nat)
    ensures BlockStart(j, hop) == j * hop
  {
    if j > 0 {
      BlockStartIsMultiple(j - 1, hop);
      assert j * hop == (j - 1) * hop + hop;
    }
  }

  /** The energy of block j is the mean energy of the window frames from its start on. */
  ghost predicate IsBlock(e: seq<real>, j: nat, block: real, window: nat, hop: nat)
    requires window > 0
  {
    var start := BlockStart(j, hop);
    start + window <= |e| && block == Sum(e, start, start + window) / window as real
  }

  /** One block per hop since the window first filled, and the frames since the last of them. */
  ghost predicate BlocksHold(blocks: seq<real>, since: nat, e: seq<real>, window: nat, hop: nat)
    requires window > 0
  {
    && (if |blocks| == 0 then |e| < window && since == |e|
        else since < hop && |e| == BlockStart(|blocks| - 1, hop) + window + since)
    && (forall j :: 0 <= j < |blocks| ==> IsBlock(e, j, blocks[j], window, hop))
  }

  /** The rolling sum after one more frame: the energy leaving the window is the one overwritten. */
  lemma {:induction false} RollingStep(ring: seq<real>, write: nat, count: nat, rolling: real, e: seq<real>,
                                       window: nat, x: real)
    requires RingHolds(ring, write, count, rolling, e, window)
    ensures var kept := if count == window then rolling - ring[write] else rolling;
            var count' := if count == window then count else count + 1;
            kept + x == Sum(e + [x], |e| + 1 - count', |e| + 1)
  {
    var n := |e|;
    if count == window {
      SumDropFirst(e, n - window, n);
      SumOfPrefix(e, x, n + 1 - window, n);
      assert ring[write] == e[n - write - window + write];
    } else {
      SumOfPrefix(e, x, 0, n);
    }
  }

  lemma {:induction false} RingStep(ring: seq<real>, write: nat, count: nat, rolling: real, e: seq<real>,
                                    window: nat, x: real)
    requires RingHolds(ring, write, count, rolling, e, window)
    ensures var kept := if count == window then rolling - ring[write] else rolling;
            var count' := if count == window then count else count + 1;
            RingHolds(ring[write := x], (write + 1) % window, count', kept + x, e + [x], window)
  {
    RollingStep(ring, write, count, rolling, e, window, x);
    WrapAround(write, window);
    WrappedStep(|e|, window);
  }

  /** Blocks already emitted keep their contents when a frame arrives. */
  lemma {:induction false} BlocksKept(blocks: seq<real>, e: seq<real>, window: nat, hop: nat, x: real)
    requires window > 0 && forall j :: 0 <= j < |blocks| ==> IsBlock(e, j, blocks[j], window, hop)
    ensures forall j :: 0 <= j < |blocks| ==> IsBlock(e + [x], j, blocks[j], window, hop)
  {
    forall j | 0 <= j < |blocks|
      ensures IsBlock(e + [x], j, blocks[j], window, hop)
    {
      assert IsBlock(e, j, blocks[j], window, hop);
      var start := BlockStart(j, hop);
      SumOfPrefix(e, x, start, start + window);
    }
  }

  /** A frame emits a block exactly when the window is full and a hop has passed since the last one. */
  lemma {:induction false} BlockStep(blocks: seq<real>, since: nat, e: seq<real>, window: nat, hop: nat, x: real,
                                     rolling: real)
    requires 0 < hop <= window && BlocksHold(blocks, since, e, window, hop)
    requires rolling == Sum(e + [x], if |e| + 1 < window then 0 else |e| + 1 - window, |e| + 1)
    ensures |e| + 1 >= window && since + 1 >= hop ==>
              BlocksHold(blocks + [rolling / window as real], 0, e + [x], window, hop)
    ensures !(|e| + 1 >= window && since + 1 >= hop) ==> BlocksHold(blocks, since + 1, e + [x], window, hop)
  {
    BlocksKept(blocks, e, window, hop, x);
    if |e| + 1 >= window && since + 1 >= hop {
      var j := |blocks|;
      assert BlockStart(j, hop) == |e| + 1 - window;
      assert IsBlock(e + [x], j, rolling / window as real, window, hop);
    }
  }

  // ----- the blocks in closed form

  lemma {:induction false} StepRaisesQuotient(x: nat, hop: nat)
    requires hop > 0
    ensures (x + hop) / hop == x / hop + 1
  {
    var q, q' := x / hop, (x + hop) / hop;
    var d := q' - q - 1;
    assert x + hop == q' * hop + (x + hop) % hop && x == q * hop + x % hop;
    assert d * hop == q' * hop - q * hop - hop;
    assert d > 0 ==> (d - 1) * hop >= 0;
    assert d < 0 ==> (-d - 1) * hop >= 0;
  }

  lemma {:induction false} QuotientOfSteps(k: nat, hop: nat, rest: nat)
    requires rest < hop
    ensures (BlockStart(k, hop) + rest) / hop == k
    decreases k
  {
    if k > 0 {
      QuotientOfSteps(k - 1, hop, rest);
      StepRaisesQuotient(BlockStart(k - 1, hop) + rest, hop);
    }
  }

  function BlockCount(n: nat, window: nat, hop: nat): nat
    requires 0 < hop
  {
    if n < window then 0 else 1 + (n - window) / hop
  }

  lemma {:induction false} BlocksCounted(blocks: seq<real>, since: nat, e: seq<real>, window: nat, hop: nat)
    requires 0 < hop <= window && BlocksHold(blocks, since, e, window, hop)
    ensures |blocks| == BlockCount(|e|, window, hop)
  {
    if |blocks| > 0 {
      QuotientOfSteps(|blocks| - 1, hop, since);
    }
  }

  /** After n frames: no block before the window has filled, then one for every hop; and block j is the
      mean energy of the frames j * hop up to j * hop + window. */
  lemma {:induction false} BlocksInClosedForm(blocks: seq<real>, since: nat, e: seq<real>, window: nat, hop: nat)
    requires 0 < hop <= window && BlocksHold(blocks, since, e, window, hop)
    ensures |blocks| == BlockCount(|e|, window, hop)
    ensures forall j :: 0 <= j < |blocks| ==>
              0 <= j * hop <= j * hop + window <= |e|
              && blocks[j] == Sum(e, j * hop, j * hop + window) / window as real
  {
    BlocksCounted(blocks, since, e, window, hop);
    forall j | 0 <= j < |blocks|
      ensures 0 <= j * hop <= j * hop + window <= |e|
      ensures blocks[j] == Sum(e, j * hop, j * hop + window) / window as real
    {
      assert IsBlock(e, j, blocks[j], window, hop);
      BlockStartIsMultiple(j, hop);
    }
  }

  /** The mean energy of the window that starts at a frame. */
  function Mean(e: seq<real>, start: nat, window: nat): real
    requires window > 0
  {
    if start + window <= |e| then Sum(e, start, start + window) / window as real else 0.0
  }

  /** The first gating blocks of a stream of energies. */
  function FirstBlocks(e: seq<real>, window: nat, hop: nat, count: nat): (blocks: seq<real>)
    requires window > 0
    ensures |blocks| == count && forall j :: 0 <= j < count ==> blocks[j] == Mean(e, BlockStart(j, hop), window)
  {
    seq(count, j requires j >= 0 => Mean(e, BlockStart(j, hop), window))
  }

  /** All its gating blocks. */
  function Blocks(e: seq<real>, window: nat, hop: nat): seq<real>
    requires 0 < hop <= window
  {
    FirstBlocks(e, window, hop, BlockCount(|e|, window, hop))
  }

  lemma {:induction false} BlocksAreFirst(blocks: seq<real>, since: nat, e: seq<real>, window: nat, hop: nat)
    requires window > 0 && BlocksHold(blocks, since, e, window, hop)
    ensures blocks == FirstBlocks(e, window, hop, |blocks|)
  {
    forall j | 0 <= j < |blocks|
      ensures blocks[j] == Mean(e, BlockStart(j, hop), window)
    {
      assert IsBlock(e, j, blocks[j], window, hop);
    }
  }

  /** The energies determine the blocks, however the frames were fed. */
  lemma {:induction false} BlocksDetermined(blocks: seq<real>, since: nat, e: seq<real>, window: nat, hop: nat)
    requires 0 < hop <= window && BlocksHold(blocks, since, e, window, hop)
    ensures blocks == Blocks(e, window, hop)
  {
    BlocksCounted(blocks, since, e, window, hop);
    BlocksAreFirst(blocks, since, e, window, hop);
  }

  // ----- the meter

  const MAX_WINDOW_FRAMES: nat := 76800

  /** Rounding to the nearest integer, halves away from zero, of a non-negative number. */
  function Round(x: real): int {
    (x + 0.5).Floor
  }

  predicate SupportedRate(rate: Sample) {
    rate.Finite? && 8000.0 <= rate.value <= 192000.0
  }

  class LoudnessMeter {
    var windowFrames: nat
    var hopFrames: nat
    var weighting: Weighting
    var delays: Delays
    const energyRing: array<real>
    var ringWrite: nat
    var ringCount: nat
    var framesSinceBlock: nat
    var rollingEnergy: real
    var blockEnergies: seq<real>

    /** Every frame processed since the last reset. */
    ghost var fed: seq<StereoFrame>

    ghost predicate Valid()
      reads this, energyRing
    {
      && 0 < hopFrames <= windowFrames <= MAX_WINDOW_FRAMES == energyRing.Length
      && delays == Weighted(weighting, fed).1
      && RingHolds(energyRing[..], ringWrite, ringCount, rollingEnergy, Weighted(weighting, fed).0, windowFrames)
      && BlocksHold(blockEnergies, framesSinceBlock, Weighted(weighting, fed).0, windowFrames, hopFrames)
    }

    constructor (k: Weighting)
      ensures Valid() && fed == [] && blockEnergies == [] && fresh(energyRing)
      ensures windowFrames == 19200 && hopFrames == 4800 && weighting == k
    {
      windowFrames, hopFrames, weighting, delays := 19200, 4800, k, CLEARED;
      energyRing := new real[MAX_WINDOW_FRAMES];
      ringWrite, ringCount, framesSinceBlock, rollingEnergy, blockEnergies := 0, 0, 0, 0.0, [];
      fed := [];
    }

    /** Window and hop for a sample rate; k stands for the sections computed for it. A rejected rate
        leaves the meter as it was. */
    method Configure(rate: Sample, k: Weighting) returns (ok: bool)
      requires Valid()
      modifies this, energyRing
      ensures Valid() && ok == SupportedRate(rate)
      ensures ok ==> fed == [] && weighting == k
      ensures ok ==> windowFrames == Round(rate.value * 0.4) && hopFrames == Round(rate.value * 0.1)
      ensures !ok ==> fed == old(fed) && windowFrames == old(windowFrames) && hopFrames == old(hopFrames)
                      && blockEnergies == old(blockEnergies) && weighting == old(weighting)
    {
      if !SupportedRate(rate) {
        return false;
      }
      var w, h := Round(rate.value * 0.4), Round(rate.value * 0.1);
      if w == 0 || w > MAX_WINDOW_FRAMES || h == 0 {
        assert false;
        return false;
      }
      windowFrames, hopFrames, weighting := w, h, k;
      Reset();
      ok := true;
    }

    method Reset()
      requires 0 < hopFrames <= windowFrames <= MAX_WINDOW_FRAMES == energyRing.Length
      modifies this, energyRing
      ensures Valid() && fed == [] && blockEnergies == []
      ensures windowFrames == old(windowFrames) && hopFrames == old(hopFrames) && weighting == old(weighting)
    {
      delays := CLEARED;
      forall i | 0 <= i < energyRing.Length {
        energyRing[i] := 0.0;
      }
      ringWrite, ringCount, framesSinceBlock, rollingEnergy, blockEnergies := 0, 0, 0, 0.0, [];
      fed := [];
    }

    /** Put one energy into the ring and move the rolling sum on. */
    method MoveWindow(x: real, ghost e: seq<real>)
      requires energyRing.Length == MAX_WINDOW_FRAMES
      requires RingHolds(energyRing[..], ringWrite, ringCount, rollingEnergy, e, windowFrames)
      modifies this`ringCount, this`rollingEnergy, this`ringWrite, energyRing
      ensures RingHolds(energyRing[..], ringWrite, ringCount, rollingEnergy, e + [x], windowFrames)
    {
      RingStep(energyRing[..], ringWrite, ringCount, rollingEnergy, e, windowFrames, x);
      ghost var ring := energyRing[..];
      if ringCount == windowFrames {
        rollingEnergy := rollingEnergy - energyRing[ringWrite];
      } else {
        ringCount := ringCount + 1;
      }
      energyRing[ringWrite] := x;
      assert energyRing[..] == ring[ringWrite := x];
      rollingEnergy := rollingEnergy + x;
      ringWrite := (ringWrite + 1) % windowFrames;
    }

    /** Emit a block if one is due after the frame whose energy is x. */
    method EmitBlock(ghost e: seq<real>, ghost x: real)
      requires 0 < hopFrames <= windowFrames && BlocksHold(blockEnergies, framesSinceBlock, e, windowFrames, hopFrames)
      requires ringCount == (if |e| + 1 < windowFrames then |e| + 1 else windowFrames)
      requires rollingEnergy == Sum(e + [x], |e| + 1 - ringCount, |e| + 1) >= 0.0
      modifies this`framesSinceBlock, this`blockEnergies
      ensures BlocksHold(blockEnergies, framesSinceBlock, e + [x], windowFrames, hopFrames)
    {
      BlockStep(blockEnergies, framesSinceBlock, e, windowFrames, hopFrames, x, rollingEnergy);
      framesSinceBlock := framesSinceBlock + 1;
      if ringCount == windowFrames && framesSinceBlock >= hopFrames {
        var blockEnergy := Max(0.0, rollingEnergy / windowFrames as real);
        blockEnergies := blockEnergies + [blockEnergy];
        framesSinceBlock := 0;
      }
    }

    /** One weighted energy: move the window on and emit a block when one is due. */
    method Measure(x: real, ghost e: seq<real>)
      requires energyRing.Length == MAX_WINDOW_FRAMES && 0 < hopFrames <= windowFrames
      requires RingHolds(energyRing[..], ringWrite, ringCount, rollingEnergy, e, windowFrames)
      requires BlocksHold(blockEnergies, framesSinceBlock, e, windowFrames, hopFrames)
      requires forall i :: 0 <= i < |e + [x]| ==> (e + [x])[i] >= 0.0
      modifies this`ringCount, this`rollingEnergy, this`ringWrite, this`framesSinceBlock, this`blockEnergies, energyRing
      ensures RingHolds(energyRing[..], ringWrite, ringCount, rollingEnergy, e + [x], windowFrames)
      ensures BlocksHold(blockEnergies, framesSinceBlock, e + [x], windowFrames, hopFrames)
    {
      MoveWindow(x, e);
      SumNonNegative(e + [x], |e| + 1 - ringCount, |e| + 1);
      EmitBlock(e, x);
    }

    /** One frame: weight it, move the window on, and emit a block when one is due. */
    method ProcessFrame(frame: StereoFrame)
      requires Valid()
      modifies this, energyRing
      ensures Valid() && fed == old(fed) + [frame]
      ensures windowFrames == old(windowFrames) && hopFrames == old(hopFrames) && weighting == old(weighting)
    {
      ghost var e := Weighted(weighting, fed).0;
      var next := WeightFrame(weighting, delays, frame);
      WeightedStep(weighting, fed, frame);
      Measure(next.0, e);
      delays := next.1;
      fed := fed + [frame];
    }

    /** The state after a call depends only on everything fed so far, not on how it was cut into calls. */
    method Process(frames: seq<StereoFrame>)
      requires Valid()
      modifies this, energyRing
      ensures Valid() && fed == old(fed) + frames
      ensures windowFrames == old(windowFrames) && hopFrames == old(hopFrames) && weighting == old(weighting)
    {
      for i := 0 to |frames|
        invariant Valid() && fed == old(fed) + frames[..i]
        invariant windowFrames == old(windowFrames) && hopFrames == old(hopFrames) && weighting == old(weighting)
      {
        ProcessFrame(frames[i]);
        assert frames[..i + 1] == frames[..i] + [frames[i]];
      }
      assert frames[..|frames|] == frames;
    }
  }

  /** Two meters that were fed the same frames, in whatever chunks, are in the same state: the measurement, the
      cursors, the live cells of the ring and the filter delays. */
  lemma {:induction false} ChunkingInvisible(a: LoudnessMeter, b: LoudnessMeter)
    requires a.Valid() && b.Valid() && a.fed == b.fed && a.weighting == b.weighting
    requires a.windowFrames == b.windowFrames && a.hopFrames == b.hopFrames
    ensures a.blockEnergies == b.blockEnergies && a.framesSinceBlock == b.framesSinceBlock && a.delays == b.delays
    ensures a.rollingEnergy == b.rollingEnergy && a.ringCount == b.ringCount && a.ringWrite == b.ringWrite
    ensures a.energyRing[..][..a.ringCount] == b.energyRing[..][..b.ringCount]
  {
    var e := Weighted(a.weighting, a.fed).0;
    SameBlocks(a.blockEnergies, a.framesSinceBlock, b.blockEnergies, b.framesSinceBlock, e, a.windowFrames, a.hopFrames);
    SameRing(a.energyRing[..], a.ringWrite, a.ringCount, a.rollingEnergy,
             b.energyRing[..], b.ringWrite, b.ringCount, b.rollingEnergy, e, a.windowFrames);
  }

  lemma {:induction false} SameBlocks(b: seq<real>, since: nat, b': seq<real>, since': nat, e: seq<real>,
                                      window: nat, hop: nat)
    requires 0 < hop <= window
    requires BlocksHold(b, since, e, window, hop) && BlocksHold(b', since', e, window, hop)
    ensures b == b' && since == since'
  {
    BlocksDetermined(b, since, e, window, hop);
    BlocksDetermined(b', since', e, window, hop);
  }

  lemma {:induction false} SameRing(ring: seq<real>, write: nat, count: nat, rolling: real,
                                    ring': seq<real>, write': nat, count': nat, rolling': real, e: seq<real>, window: nat)
    requires RingHolds(ring, write, count, rolling, e, window) && RingHolds(ring', write', count', rolling', e, window)
    ensures write == write' && count == count' && rolling == rolling' && ring[..count] == ring'[..count']
  {
    forall p | 0 <= p < count
      ensures ring[p] == ring'[p]
    {
      if p < write {
        assert ring[p] == e[|e| - write + p];
      } else {
        assert ring[p] == e[|e| - write - window + p];
      }
    }
  }
}
